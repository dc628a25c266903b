/** Two CPUs run images linked apart. They meet in shared RAM only if both links put every shared
    symbol at the same address, which is what the loader checks. */
module SharedMemory {
  import opened Objects
  import opened Locator
  import opened Linker

  /** A shared symbol as the loader compares it. */
  datatype Row = Row(name: string, address: int, size: int)

  /** The shared rows of a symbol map, in order. */
  function Rows(symmap: seq<Symbol>): seq<Row>
    decreases |symmap|
  {
    if symmap == [] then []
    else
      var (front, s) := (symmap[..|symmap| - 1], symmap[|symmap| - 1]);
      Rows(front) + if s.section == Shared then [Row(s.name, s.offset, s.size)] else []
  }

  // --- the check --------------------------------------------------------------------------------------

  method Collect(symmap: seq<Symbol>) returns (rows: seq<Row>)
    ensures rows == Rows(symmap)
  {
    rows := [];
    for i := 0 to |symmap|
      invariant rows == Rows(symmap[..i])
    {
      assert symmap[..i + 1][..i] == symmap[..i];
      if symmap[i].section == Shared {
        rows := rows + [Row(symmap[i].name, symmap[i].offset, symmap[i].size)];
      }
    }
    assert symmap[..|symmap|] == symmap;
  }

  /** The same shared variables, at the same addresses, of the same sizes, in the same order. */
  method SharedAgree(a: Image, b: Image) returns (ok: bool)
    ensures ok <==> Rows(a.symmap) == Rows(b.symmap)
  {
    var ra := Collect(a.symmap);
    var rb := Collect(b.symmap);
    if |ra| != |rb| {
      return false;
    }
    for i := 0 to |ra|
      invariant ra[..i] == rb[..i]
    {
      if ra[i].name != rb[i].name || ra[i].address != rb[i].address || ra[i].size != rb[i].size {
        return false;
      }
    }
    ok := true;
  }

  function SharedSymbols(symmap: seq<Symbol>): nat
    decreases |symmap|
  {
    if symmap == [] then 0
    else SharedSymbols(symmap[..|symmap| - 1]) + if symmap[|symmap| - 1].section == Shared then 1 else 0
  }

  /** Symbol `i` of one map and symbol `j` of the other are shared and have as many shared before them. */
  predicate Opposite(a: seq<Symbol>, i: nat, b: seq<Symbol>, j: nat) {
    && i < |a| && j < |b| && a[i].section == Shared && b[j].section == Shared
    && SharedSymbols(a[..i]) == SharedSymbols(b[..j])
  }

  lemma {:induction false} RowAt(symmap: seq<Symbol>, i: nat)
    requires i < |symmap| && symmap[i].section == Shared
    ensures var k := SharedSymbols(symmap[..i]);
      k < |Rows(symmap)| && Rows(symmap)[k] == Row(symmap[i].name, symmap[i].offset, symmap[i].size)
    decreases |symmap|
  {
    var front := symmap[..|symmap| - 1];
    RowCount(front);
    assert front[..i] == symmap[..i];
    if i < |front| {
      RowAt(front, i);
    } else {
      assert front[..i] == front;
    }
  }

  lemma {:induction false} RowCount(symmap: seq<Symbol>)
    ensures |Rows(symmap)| == SharedSymbols(symmap)
    decreases |symmap|
  {
    if symmap != [] {
      RowCount(symmap[..|symmap| - 1]);
    }
  }

  /** Every row is that of some symbol. */
  lemma {:induction false} SymbolOfRow(symmap: seq<Symbol>, k: nat) returns (i: nat)
    requires k < |Rows(symmap)|
    ensures i < |symmap| && symmap[i].section == Shared && SharedSymbols(symmap[..i]) == k
    decreases |symmap|
  {
    var front := symmap[..|symmap| - 1];
    RowCount(front);
    if k < |Rows(front)| {
      i := SymbolOfRow(front, k);
      assert front[..i] == symmap[..i];
    } else {
      i := |front|;
    }
  }

  /** The loader accepts two images exactly when they have as many shared symbols and the first is the first,
      the second the second, by name, address and size. */
  lemma AgreesExactly(a: Image, b: Image)
    ensures Rows(a.symmap) == Rows(b.symmap) <==>
      && SharedSymbols(a.symmap) == SharedSymbols(b.symmap)
      && forall i: nat, j: nat | Opposite(a.symmap, i, b.symmap, j) ::
           var (s, t) := (a.symmap[i], b.symmap[j]); s.name == t.name && s.offset == t.offset && s.size == t.size
  {
    RowCount(a.symmap);
    RowCount(b.symmap);
    forall i: nat, j: nat | Opposite(a.symmap, i, b.symmap, j)
      ensures var k := SharedSymbols(a.symmap[..i]);
        && k < |Rows(a.symmap)| && Rows(a.symmap)[k] == Row(a.symmap[i].name, a.symmap[i].offset, a.symmap[i].size)
        && k < |Rows(b.symmap)| && Rows(b.symmap)[k] == Row(b.symmap[j].name, b.symmap[j].offset, b.symmap[j].size)
    {
      RowAt(a.symmap, i);
      RowAt(b.symmap, j);
    }
    if |Rows(a.symmap)| == |Rows(b.symmap)| && Rows(a.symmap) != Rows(b.symmap) {
      var k :| 0 <= k < |Rows(a.symmap)| && Rows(a.symmap)[k] != Rows(b.symmap)[k];
      var i := SymbolOfRow(a.symmap, k);
      var j := SymbolOfRow(b.symmap, k);
      assert Opposite(a.symmap, i, b.symmap, j);
    }
  }

  /** The address a name has in shared memory. */
  predicate SharedAt(symmap: seq<Symbol>, name: string, address: int) {
    exists s :: s in symmap && s.section == Shared && s.name == name && s.offset == address
  }

  lemma {:induction false} RowOfSymbol(symmap: seq<Symbol>, name: string, address: int)
    ensures SharedAt(symmap, name, address) <==> exists r :: r in Rows(symmap) && r.name == name && r.address == address
    decreases |symmap|
  {
    if symmap != [] {
      var (front, s) := (symmap[..|symmap| - 1], symmap[|symmap| - 1]);
      RowOfSymbol(front, name, address);
      assert symmap == front + [s];
      if s.section == Shared {
        assert Row(s.name, s.offset, s.size) in Rows(symmap);
      }
    }
  }

  /** What acceptance means: a shared name has the same addresses in both images. */
  lemma AgreementMeansSameAddresses(a: Image, b: Image, name: string, address: int)
    requires Rows(a.symmap) == Rows(b.symmap)
    ensures SharedAt(a.symmap, name, address) <==> SharedAt(b.symmap, name, address)
  {
    RowOfSymbol(a.symmap, name, address);
    RowOfSymbol(b.symmap, name, address);
  }

  // --- independent links ------------------------------------------------------------------------------

  /** The row of a symbol that is exported and shared, and no row for another. */
  function RowOfExport(s: Symbol, base: int): seq<Row> {
    if Exported(s) && s.section == Shared then [Row(s.name, base + s.offset, s.size)] else []
  }

  /** The shared rows the first `k` symbols of an object export, its part of the section being at `base`. */
  function ObjectRows(syms: seq<Symbol>, k: nat, base: int): seq<Row>
    requires k <= |syms|
    decreases k
  {
    if k == 0 then []
    else ObjectRows(syms, k - 1, base) + RowOfExport(syms[k - 1], base)
  }

  function SharedTotal(objs: seq<Object>): nat
    decreases |objs|
  {
    if objs == [] then 0 else SharedTotal(objs[..|objs| - 1]) + objs[|objs| - 1].shared
  }

  /** The rows of a list of objects, from the list alone. */
  function ListRows(objs: seq<Object>, origin: int): seq<Row>
    decreases |objs|
  {
    if objs == [] then []
    else
      var (front, last) := (objs[..|objs| - 1], objs[|objs| - 1]);
      ListRows(front, origin) + ObjectRows(last.syms, |last.syms|, origin + SharedTotal(front))
  }

  /** An object that takes part in the shared memory: it reserves some or names some. */
  predicate Bears(o: Object) { o.shared > 0 || exists s :: s in o.syms && Exported(s) && s.section == Shared }

  function Bearing(objs: seq<Object>): seq<Object>
    decreases |objs|
  {
    if objs == [] then []
    else
      var (front, last) := (objs[..|objs| - 1], objs[|objs| - 1]);
      Bearing(front) + if Bears(last) then [last] else []
  }

  lemma {:induction false} SilentObject(syms: seq<Symbol>, k: nat, base: int)
    requires k <= |syms| && forall s | s in syms :: !(Exported(s) && s.section == Shared)
    ensures ObjectRows(syms, k, base) == []
    decreases k
  {
    if k > 0 {
      SilentObject(syms, k - 1, base);
    }
  }

  lemma ListSnoc(front: seq<Object>, last: Object, origin: int)
    ensures SharedTotal(front + [last]) == SharedTotal(front) + last.shared
    ensures ListRows(front + [last], origin) ==
      ListRows(front, origin) + ObjectRows(last.syms, |last.syms|, origin + SharedTotal(front))
    ensures Bearing(front + [last]) == Bearing(front) + if Bears(last) then [last] else []
  {
    var objs := front + [last];
    assert objs[..|objs| - 1] == front && objs[|objs| - 1] == last;
  }

  lemma SilentLast(front: seq<Object>, last: Object, origin: int)
    requires !Bears(last)
    ensures SharedTotal(front + [last]) == SharedTotal(front)
    ensures ListRows(front + [last], origin) == ListRows(front, origin)
    ensures Bearing(front + [last]) == Bearing(front)
  {
    ListSnoc(front, last, origin);
    SilentObject(last.syms, |last.syms|, origin + SharedTotal(front));
  }

  lemma BearerOrNot(front: seq<Object>, last: Object, origin: int)
    requires SharedTotal(Bearing(front)) == SharedTotal(front)
    requires ListRows(Bearing(front), origin) == ListRows(front, origin)
    ensures SharedTotal(Bearing(front + [last])) == SharedTotal(front + [last])
    ensures ListRows(Bearing(front + [last]), origin) == ListRows(front + [last], origin)
  {
    if Bears(last) {
      ListSnoc(front, last, origin);
      ListSnoc(Bearing(front), last, origin);
    } else {
      SilentLast(front, last, origin);
    }
  }

  /** Objects without shared variables, wherever they are interleaved, move nothing. */
  lemma {:induction false} OnlyBearersCount(objs: seq<Object>, origin: int)
    ensures SharedTotal(Bearing(objs)) == SharedTotal(objs)
    ensures ListRows(Bearing(objs), origin) == ListRows(objs, origin)
    decreases |objs|
  {
    if objs != [] {
      OnlyBearersCount(objs[..|objs| - 1], origin);
      BearerOrNot(objs[..|objs| - 1], objs[|objs| - 1], origin);
      assert objs[..|objs| - 1] + [objs[|objs| - 1]] == objs;
    }
  }

  lemma {:induction false} TotalIsSum(objs: seq<Object>, m: nat)
    requires m <= |objs|
    ensures SharedTotal(objs[..m]) == Sum(objs, Shared, m)
    decreases m
  {
    if m > 0 {
      assert objs[..m][..m - 1] == objs[..m - 1];
      TotalIsSum(objs, m - 1);
    }
  }

  lemma RowsSnoc(symmap: seq<Symbol>, s: Symbol)
    ensures Rows(symmap + [s]) == Rows(symmap) + if s.section == Shared then [Row(s.name, s.offset, s.size)] else []
  {
    assert (symmap + [s])[..|symmap|] == symmap;
  }

  function MapRowsUpTo(objs: seq<Object>, o: Origins, m: nat, k: nat): seq<Row>
    requires (m < |objs| && k <= |objs[m].syms|) || (m == |objs| && k == 0)
  {
    Rows(Mapped(objs, o, Exports(objs, m, k)))
  }

  lemma MapRowsStep(objs: seq<Object>, o: Origins, m: nat, k: nat)
    requires m < |objs| && k < |objs[m].syms|
    ensures MapRowsUpTo(objs, o, m, k + 1) ==
      MapRowsUpTo(objs, o, m, k) + RowOfExport(objs[m].syms[k], Base(objs, o, Shared, m))
  {
    var (before, d) := (Exports(objs, m, k), Definition(m, objs[m].syms[k]));
    if Exported(d.sym) {
      MappedSnoc(objs, o, before, d);
      RowsSnoc(Mapped(objs, o, before), d.sym.(offset := Address(objs, o, d)));
    } else {
      assert Exports(objs, m, k + 1) == before;
    }
  }

  /** Rows that grow symbol by symbol grow by the rows of the object. */
  lemma {:induction false} RowsGrow(f: nat -> seq<Row>, syms: seq<Symbol>, k: nat, base: int)
    requires k <= |syms| && forall j: nat | j < k :: f(j + 1) == f(j) + RowOfExport(syms[j], base)
    ensures f(k) == f(0) + ObjectRows(syms, k, base)
    decreases k
  {
    if k > 0 {
      RowsGrow(f, syms, k - 1, base);
      assert f(k - 1 + 1) == f(k - 1) + RowOfExport(syms[k - 1], base);
    }
  }

  lemma ObjectMapRows(objs: seq<Object>, o: Origins, m: nat)
    requires m < |objs|
    ensures MapRowsUpTo(objs, o, m, |objs[m].syms|) ==
      MapRowsUpTo(objs, o, m, 0) + ObjectRows(objs[m].syms, |objs[m].syms|, Base(objs, o, Shared, m))
  {
    var syms := objs[m].syms;
    var f := (j: nat) => if j <= |syms| then MapRowsUpTo(objs, o, m, j) else [];
    forall j: nat | j < |syms|
      ensures f(j + 1) == f(j) + RowOfExport(syms[j], Base(objs, o, Shared, m))
    {
      MapRowsStep(objs, o, m, j);
    }
    RowsGrow(f, syms, |syms|, Base(objs, o, Shared, m));
  }

  lemma NextObject(objs: seq<Object>, o: Origins, m: nat)
    requires m < |objs|
    ensures MapRowsUpTo(objs, o, m + 1, 0) == MapRowsUpTo(objs, o, m, |objs[m].syms|)
  {
    assert Exports(objs, m + 1, 0) == Exports(objs, m, |objs[m].syms|);
  }

  lemma BaseIsTotal(objs: seq<Object>, o: Origins, m: nat)
    requires m < |objs|
    ensures Base(objs, o, Shared, m) == o.shared + SharedTotal(objs[..m])
  {
    TotalIsSum(objs, m);
  }

  lemma NextObjectRows(objs: seq<Object>, o: Origins, m: nat)
    requires m < |objs|
    ensures ListRows(objs[..m + 1], o.shared) ==
      ListRows(objs[..m], o.shared) + ObjectRows(objs[m].syms, |objs[m].syms|, Base(objs, o, Shared, m))
  {
    BaseIsTotal(objs, o, m);
    ListSnoc(objs[..m], objs[m], o.shared);
    assert objs[..m + 1] == objs[..m] + [objs[m]];
  }

  /** The rows of the linker's map are those of the list of objects. */
  lemma {:induction false} MapRows(objs: seq<Object>, o: Origins, m: nat)
    requires m <= |objs|
    ensures MapRowsUpTo(objs, o, m, 0) == ListRows(objs[..m], o.shared)
    decreases m
  {
    if m > 0 {
      MapRows(objs, o, m - 1);
      ObjectMapRows(objs, o, m - 1);
      NextObject(objs, o, m - 1);
      NextObjectRows(objs, o, m - 1);
    }
  }

  /** Two links with the same shared origin and the same shared-bearing objects in the same order,
      whatever else each links in between, agree on every shared variable. */
  lemma IndependentLinksAgree(objs: seq<Object>, entry: Option<string>, s: Scope, img: Image,
      objs': seq<Object>, entry': Option<string>, s': Scope, img': Image)
    requires IsImage(objs, entry, s, img) && IsImage(objs', entry', s', img')
    requires OriginsOf(s).shared == OriginsOf(s').shared && Bearing(objs) == Bearing(objs')
    ensures Rows(img.symmap) == Rows(img'.symmap)
  {
    var origin := OriginsOf(s).shared;
    MapRows(objs, OriginsOf(s), |objs|);
    MapRows(objs', OriginsOf(s'), |objs'|);
    assert objs[..|objs|] == objs && objs'[..|objs'|] == objs';
    OnlyBearersCount(objs, origin);
    OnlyBearersCount(objs', origin);
  }
}
