/** The text of a placement file: a recursive descent over its tokens, which accepts exactly the files
    that declare a sound layout. */
module LocatorFile {
  import opened Locator

  // --- declarations in order ---------------------------------------------------------------------

  /** What may stand at a token when things are declared one after another: whether an entry does, what
      it makes of the state, how many tokens it takes. */
  datatype Rules<!S(!new), !I(!new)> = Rules(ok: (nat, S, I) -> bool, step: (S, I) -> S, size: I -> nat)

  /** The token after the entries, which begin at token `i`. */
  function Past<S(!new), I(!new)>(g: Rules<S, I>, i: nat, items: seq<I>): nat
    decreases |items|
  {
    if items == [] then i else Past(g, i, items[..|items| - 1]) + g.size(items[|items| - 1])
  }

  function Built<S(!new), I(!new)>(g: Rules<S, I>, s: S, items: seq<I>): S
    decreases |items|
  {
    if items == [] then s else g.step(Built(g, s, items[..|items| - 1]), items[|items| - 1])
  }

  /** The entries stand one after another from token `i` on. */
  predicate Chain<S(!new), I(!new)>(g: Rules<S, I>, i: nat, s: S, items: seq<I>)
    decreases |items|
  {
    items == [] ||
    var front := items[..|items| - 1];
    Chain(g, i, s, front) && g.ok(Past(g, i, front), Built(g, s, front), items[|items| - 1])
  }

  lemma {:induction false} PastShift<S(!new), I(!new)>(g: Rules<S, I>, i: nat, items: seq<I>)
    ensures Past(g, i, items) == i + Past(g, 0, items)
    decreases |items|
  {
    if items != [] {
      PastShift(g, i, items[..|items| - 1]);
    }
  }

  lemma ChainMore<S(!new), I(!new)>(g: Rules<S, I>, i: nat, s: S, items: seq<I>, x: I)
    requires Chain(g, i, s, items) && g.ok(Past(g, i, items), Built(g, s, items), x)
    ensures Chain(g, i, s, items + [x]) && Past(g, i, items + [x]) == Past(g, i, items) + g.size(x)
    ensures Built(g, s, items + [x]) == g.step(Built(g, s, items), x)
  {
    assert (items + [x])[..|items|] == items;
  }

  /** Where the first entries of a chain end, the next one stands. */
  lemma {:induction false} ChainAt<S(!new), I(!new)>(g: Rules<S, I>, i: nat, s: S, items: seq<I>, k: nat)
    requires Chain(g, i, s, items) && k < |items|
    ensures g.ok(Past(g, i, items[..k]), Built(g, s, items[..k]), items[k])
    decreases |items|
  {
    if k < |items| - 1 {
      var front := items[..|items| - 1];
      ChainAt(g, i, s, front, k);
      assert front[..k] == items[..k];
    }
  }

  /** At a token one entry at most stands. */
  ghost predicate Single<S(!new), I(!new)>(g: Rules<S, I>) {
    forall i, s, x, y | g.ok(i, s, x) && g.ok(i, s, y) :: x == y
  }

  /** No entry stands there. */
  ghost predicate Nothing<S(!new), I(!new)>(g: Rules<S, I>, i: nat, s: S) { forall x :: !g.ok(i, s, x) }

  lemma {:induction false} ChainsAgree<S(!new), I(!new)>(g: Rules<S, I>, i: nat, s: S, xs: seq<I>, ys: seq<I>, k: nat)
    requires Single(g) && Chain(g, i, s, xs) && Chain(g, i, s, ys) && k <= |xs| && k <= |ys|
    ensures xs[..k] == ys[..k]
    decreases k
  {
    if k > 0 {
      ChainsAgree(g, i, s, xs, ys, k - 1);
      ChainAt(g, i, s, xs, k - 1);
      ChainAt(g, i, s, ys, k - 1);
    }
  }

  /** Entries that can be followed by no other begin with every chain from there. */
  lemma LongestChain<S(!new), I(!new)>(g: Rules<S, I>, i: nat, s: S, xs: seq<I>, ys: seq<I>)
    requires Single(g) && Chain(g, i, s, xs) && Chain(g, i, s, ys)
    requires Nothing(g, Past(g, i, ys), Built(g, s, ys))
    ensures xs <= ys
  {
    ChainsAgree(g, i, s, xs, ys, if |xs| < |ys| then |xs| else |ys|);
    assert ys[..|ys|] == ys;
    if |xs| > |ys| {
      ChainAt(g, i, s, xs, |ys|);
      assert false;
    }
  }

  // --- the parser ---------------------------------------------------------------------------------

  const EMPTY := Layout(Scope("", [], []), [])

  datatype Item = MemoryItem(regions: seq<Region>) | SectionsItem(places: seq<Place>)
  datatype Decl = Common(item: Item) | Processor(name: string, items: seq<Item>)

  function Extend(s: Scope, item: Item): Scope {
    match item
    case MemoryItem(rs) => s.(regions := s.regions + rs)
    case SectionsItem(ps) => s.(places := s.places + ps)
  }

  function Size(item: Item): nat {
    match item
    case MemoryItem(rs) => 3 + 9 * |rs|
    case SectionsItem(ps) => 3 + 3 * |ps|
  }

  /** `number` is the reading of numerals. */
  class Parser {
    const toks: seq<string>
    const number: string -> Option<int>
    var at: nat

    ghost predicate Valid()
      reads this
    {
      at <= |toks|
    }

    constructor (toks: seq<string>, number: string -> Option<int>)
      ensures Valid() && at == 0 && this.toks == toks && this.number == number
    {
      this.toks, this.number, at := toks, number, 0;
    }

    // What stands at a token.

    predicate Has(i: nat, want: string) { i < |toks| && toks[i] == want }

    predicate Number(i: nat, v: int) { i < |toks| && toks[i] != "" && number(toks[i]) == Some(v) }

    predicate KeyedAt(i: nat, key: string, v: int) { Has(i, key) && Has(i + 1, "=") && Number(i + 2, v) }

    predicate RegionAt(i: nat, r: Region) {
      && Has(i, r.name) && r.name != "}" && Has(i + 1, ":")
      && Has(i + 2, if r.value.unit == CodeSpace then "CODE" else "DATA")
      && KeyedAt(i + 3, "ORIGIN", r.value.origin) && KeyedAt(i + 6, "LENGTH", r.value.length) && RegionOk(r)
    }

    predicate RegionsAt(i: nat, rs: seq<Region>) { forall k | 0 <= k < |rs| :: RegionAt(i + 9 * k, rs[k]) }

    /** The body of MEMORY: regions between braces, with those of `s` no more than there is room for and no
        name twice. */
    predicate MemoryAt(i: nat, s: Scope, rs: seq<Region>) {
      && Has(i, "{") && RegionsAt(i + 1, rs) && Has(i + 1 + 9 * |rs|, "}")
      && |s.regions + rs| <= LOC_MAX && Locator.Distinct(s.regions + rs)
    }

    predicate PlaceAt(i: nat, p: Place) {
      Has(i, p.name) && p.name != "" && p.name[0] == '.' && Has(i + 1, ">") && Has(i + 2, p.value)
    }

    predicate PlacesAt(i: nat, ps: seq<Place>) { forall k | 0 <= k < |ps| :: PlaceAt(i + 3 * k, ps[k]) }

    /** The body of SECTIONS. */
    predicate SectionsAt(i: nat, s: Scope, ps: seq<Place>) {
      && Has(i, "{") && PlacesAt(i + 1, ps) && Has(i + 1 + 3 * |ps|, "}")
      && |s.places + ps| <= LOC_MAX && Locator.Distinct(s.places + ps)
    }

    predicate ItemAt(i: nat, s: Scope, item: Item) {
      match item
      case MemoryItem(rs) => Has(i, "MEMORY") && MemoryAt(i + 1, s, rs)
      case SectionsItem(ps) => Has(i, "SECTIONS") && SectionsAt(i + 1, s, ps)
    }

    function Items(): Rules<Scope, Item> {
      Rules((i: nat, s: Scope, item: Item) => ItemAt(i, s, item), Extend, Size)
    }

    /** The body of a PROCESSOR block. */
    predicate BodyAt(i: nat, s: Scope, items: seq<Item>) {
      Has(i, "{") && Chain(Items(), i + 1, s, items) && Has(Past(Items(), i + 1, items), "}")
    }

    function Block(name: string, items: seq<Item>): Scope { Built(Items(), Scope(name, [], []), items) }

    predicate DeclAt(i: nat, l: Layout, d: Decl) {
      match d
      case Common(item) => ItemAt(i, l.board, item)
      case Processor(name, items) =>
        && Has(i, "PROCESSOR") && |l.procs| < LOC_MAX && (forall p | p in l.procs :: p.name != name)
        && Has(i + 1, name) && BodyAt(i + 2, Scope(name, [], []), items)
    }

    function Declared(l: Layout, d: Decl): Layout {
      match d
      case Common(item) => l.(board := Extend(l.board, item))
      case Processor(name, items) => l.(procs := l.procs + [Block(name, items)])
    }

    function DeclSize(d: Decl): nat {
      match d
      case Common(item) => Size(item)
      case Processor(_, items) => 4 + Past(Items(), 0, items)
    }

    function Decls(): Rules<Layout, Decl> {
      Rules((i: nat, l: Layout, d: Decl) => DeclAt(i, l, d), (l: Layout, d: Decl) => Declared(l, d),
        (d: Decl) => DeclSize(d))
    }

    function LayoutOf(ds: seq<Decl>): Layout { Built(Decls(), EMPTY, ds) }

    /** The tokens are these declarations and nothing else, and they declare some memory or some CPU. */
    predicate IsFile(ds: seq<Decl>) {
      && Chain(Decls(), 0, EMPTY, ds) && Past(Decls(), 0, ds) == |toks|
      && (LayoutOf(ds).board.regions != [] || LayoutOf(ds).procs != [])
    }

    /** No region is empty, no code is elsewhere than at 0, and no data are at 0. */
    lemma RegionsRefused(i: nat, r: Region)
      requires RegionAt(i, r)
      ensures r.value.length > 0
      ensures if r.value.unit == CodeSpace then r.value.origin == 0 else r.value.origin != 0
    {
    }

    // What stands there is one thing only.

    lemma RegionsGoOn(i: nat, rs: seq<Region>, k: nat)
      requires RegionsAt(i, rs)
      ensures k < |rs| ==> !Has(i + 9 * k, "}")
    {
      assert k < |rs| ==> RegionAt(i + 9 * k, rs[k]);
    }

    lemma PlacesGoOn(i: nat, ps: seq<Place>, k: nat)
      requires PlacesAt(i, ps)
      ensures k < |ps| ==> !Has(i + 3 * k, "}")
    {
      assert k < |ps| ==> PlaceAt(i + 3 * k, ps[k]);
    }

    lemma OneBlockOfRegions(i: nat, s: Scope, rs: seq<Region>, qs: seq<Region>)
      requires MemoryAt(i, s, rs) && MemoryAt(i, s, qs)
      ensures rs == qs
    {
      RegionsGoOn(i + 1, rs, |qs|);
      RegionsGoOn(i + 1, qs, |rs|);
      forall k | 0 <= k < |rs| && k < |qs|
        ensures rs[k] == qs[k]
      {
        assert RegionAt(i + 1 + 9 * k, rs[k]) && RegionAt(i + 1 + 9 * k, qs[k]);
      }
    }

    lemma OneBlockOfPlaces(i: nat, s: Scope, ps: seq<Place>, qs: seq<Place>)
      requires SectionsAt(i, s, ps) && SectionsAt(i, s, qs)
      ensures ps == qs
    {
      PlacesGoOn(i + 1, ps, |qs|);
      PlacesGoOn(i + 1, qs, |ps|);
      forall k | 0 <= k < |ps| && k < |qs|
        ensures ps[k] == qs[k]
      {
        assert PlaceAt(i + 1 + 3 * k, ps[k]) && PlaceAt(i + 1 + 3 * k, qs[k]);
      }
    }

    lemma OneItem(i: nat, s: Scope, x: Item, y: Item)
      requires ItemAt(i, s, x) && ItemAt(i, s, y)
      ensures x == y
    {
      match x
      case MemoryItem(rs) => OneBlockOfRegions(i + 1, s, rs, y.regions);
      case SectionsItem(ps) => OneBlockOfPlaces(i + 1, s, ps, y.places);
    }

    // The descent.

    function Peek(): string
      reads this
    {
      if at < |toks| then toks[at] else ""
    }

    method Eat(want: string) returns (ok: bool)
      requires Valid() && want != ""
      modifies this
      ensures Valid() && ok == Has(old(at), want) && at == (if ok then old(at) + 1 else old(at))
    {
      ok := Peek() == want;
      if ok {
        at := at + 1;
      }
    }

    method Next() returns (t: string)
      requires Valid()
      modifies this
      ensures Valid() && t == old(Peek()) && at == if old(at) < |toks| then old(at) + 1 else old(at)
    {
      t := Peek();
      if at < |toks| {
        at := at + 1;
      }
    }

    /** `KEY = number`. */
    method KeyedNumber(key: string) returns (v: Option<int>)
      requires Valid() && key != ""
      modifies this
      ensures Valid() && old(at) <= at
      ensures match v
        case Some(n) => KeyedAt(old(at), key, n) && at == old(at) + 3
        case None => forall n :: !KeyedAt(old(at), key, n)
    {
      var ok := Eat(key);
      if !ok {
        return None;
      }
      ok := Eat("=");
      if !ok {
        return None;
      }
      var t := Next();
      v := if t == "" then None else number(t);
    }

    /** `name : CODE|DATA ORIGIN = n LENGTH = n`, of positive length, code at 0 and data elsewhere. */
    method OneRegion() returns (r: Option<Region>)
      requires Valid() && at < |toks| && toks[at] != "}"
      modifies this
      ensures Valid() && old(at) < at
      ensures match r
        case Some(x) => RegionAt(old(at), x) && at == old(at) + 9
        case None => forall x :: !RegionAt(old(at), x)
    {
      var name := Next();
      var ok := Eat(":");
      if !ok {
        return None;
      }
      var u := Next();
      if u != "CODE" && u != "DATA" {
        return None;
      }
      var origin := KeyedNumber("ORIGIN");
      if origin.None? {
        return None;
      }
      var length := KeyedNumber("LENGTH");
      if length.None? || length.value <= 0 {
        return None;
      }
      if u == "CODE" && origin.value != 0 {
        return None;
      }
      if u == "DATA" && origin.value == 0 {
        return None;
      }
      r := Some(Named(name, Extent(if u == "CODE" then CodeSpace else DataSpace, origin.value, length.value)));
    }

    /** Every reading of the block begins with the regions read so far. */
    ghost predicate RegionsSoFar(i: nat, s: Scope, rs: seq<Region>) {
      && Has(i, "{") && RegionsAt(i + 1, rs) && |s.regions + rs| <= LOC_MAX && Locator.Distinct(s.regions + rs)
      && forall qs | MemoryAt(i, s, qs) :: rs <= qs
    }

    ghost predicate NoMemory(i: nat, s: Scope) { forall qs :: !MemoryAt(i, s, qs) }

    /** No region stands there, or its name is in use. */
    ghost predicate NoNewRegion(i: nat, used: seq<Region>) {
      forall x | RegionAt(i, x) :: exists r :: r in used && r.name == x.name
    }

    lemma AnotherRegion(i: nat, s: Scope, rs: seq<Region>, qs: seq<Region>)
      requires MemoryAt(i, s, qs) && rs <= qs && !Has(i + 1 + 9 * |rs|, "}")
      ensures |rs| < |qs| && RegionAt(i + 1 + 9 * |rs|, qs[|rs|])
      ensures |s.regions + rs| < LOC_MAX && forall r | r in s.regions + rs :: r.name != qs[|rs|].name
    {
      var (all, n) := (s.regions + qs, |s.regions + rs|);
      assert |rs| < |qs| && all[n] == qs[|rs|] && all[..n] == s.regions + rs;
      forall r | r in all[..n]
        ensures r.name != all[n].name
      {
        var j :| 0 <= j < n && all[j] == r;
      }
    }

    /** No region follows, or there is no room for it, or its name is there already. */
    lemma NoMoreRegions(i: nat, s: Scope, rs: seq<Region>)
      requires RegionsSoFar(i, s, rs) && !Has(i + 1 + 9 * |rs|, "}")
      requires |s.regions + rs| >= LOC_MAX || NoNewRegion(i + 1 + 9 * |rs|, s.regions + rs)
      ensures NoMemory(i, s)
    {
      forall qs
        ensures !MemoryAt(i, s, qs)
      {
        if MemoryAt(i, s, qs) {
          AnotherRegion(i, s, rs, qs);
          assert false;
        }
      }
    }

    lemma OneMoreRegion(i: nat, s: Scope, rs: seq<Region>, x: Region)
      requires RegionsSoFar(i, s, rs) && RegionAt(i + 1 + 9 * |rs|, x)
      requires |s.regions + rs| < LOC_MAX && forall k | 0 <= k < |s.regions + rs| :: (s.regions + rs)[k].name != x.name
      ensures RegionsSoFar(i, s, rs + [x])
    {
      assert s.regions + (rs + [x]) == (s.regions + rs) + [x];
      forall qs | MemoryAt(i, s, qs)
        ensures rs + [x] <= qs
      {
        AnotherRegion(i, s, rs, qs);
        assert qs[|rs|] == x;
      }
    }

    /** MEMORY, its body: it is read exactly when it is one. */
    method Memory(s: Scope) returns (out: Option<Scope>, ghost rs: seq<Region>)
      requires Valid() && Sound(s)
      modifies this
      ensures Valid() && old(at) <= at
      ensures match out
        case Some(t) => MemoryAt(old(at), s, rs) && t == Extend(s, MemoryItem(rs)) && at == old(at) + 2 + 9 * |rs|
        case None => NoMemory(old(at), s)
    {
      rs := [];
      ghost var i := at;
      var ok := Eat("{");
      if !ok {
        return None, rs;
      }
      var t := s;
      assert s.regions + rs == s.regions;
      while Peek() != "}"
        invariant Valid() && at == i + 1 + 9 * |rs| && RegionsSoFar(i, s, rs) && t == Extend(s, MemoryItem(rs))
        decreases |toks| - at
      {
        if at >= |toks| || |t.regions| >= LOC_MAX {
          assert at >= |toks| ==> NoNewRegion(at, t.regions);
          NoMoreRegions(i, s, rs);
          return None, rs;
        }
        var r := OneRegion();
        if r.None? {
          assert NoNewRegion(i + 1 + 9 * |rs|, t.regions);
          NoMoreRegions(i, s, rs);
          return None, rs;
        }
        var j := Find(t.regions, r.value.name);
        if j < |t.regions| {
          assert t.regions[j] in t.regions && NoNewRegion(i + 1 + 9 * |rs|, t.regions);
          NoMoreRegions(i, s, rs);
          return None, rs;
        }
        OneMoreRegion(i, s, rs, r.value);
        t := t.(regions := t.regions + [r.value]);
        rs := rs + [r.value];
      }
      ok := Eat("}");
      out := Some(t);
    }

    ghost predicate PlacesSoFar(i: nat, s: Scope, ps: seq<Place>) {
      && Has(i, "{") && PlacesAt(i + 1, ps) && |s.places + ps| <= LOC_MAX && Locator.Distinct(s.places + ps)
      && forall qs | SectionsAt(i, s, qs) :: ps <= qs
    }

    ghost predicate NoSections(i: nat, s: Scope) { forall qs :: !SectionsAt(i, s, qs) }

    ghost predicate NoNewPlace(i: nat, used: seq<Place>) {
      forall x | PlaceAt(i, x) :: exists p :: p in used && p.name == x.name
    }

    lemma AnotherPlace(i: nat, s: Scope, ps: seq<Place>, qs: seq<Place>)
      requires SectionsAt(i, s, qs) && ps <= qs && !Has(i + 1 + 3 * |ps|, "}")
      ensures |ps| < |qs| && PlaceAt(i + 1 + 3 * |ps|, qs[|ps|])
      ensures |s.places + ps| < LOC_MAX && forall p | p in s.places + ps :: p.name != qs[|ps|].name
    {
      var (all, n) := (s.places + qs, |s.places + ps|);
      assert |ps| < |qs| && all[n] == qs[|ps|] && all[..n] == s.places + ps;
      forall p | p in all[..n]
        ensures p.name != all[n].name
      {
        var j :| 0 <= j < n && all[j] == p;
      }
    }

    lemma NoMorePlaces(i: nat, s: Scope, ps: seq<Place>)
      requires PlacesSoFar(i, s, ps) && !Has(i + 1 + 3 * |ps|, "}")
      requires |s.places + ps| >= LOC_MAX || NoNewPlace(i + 1 + 3 * |ps|, s.places + ps)
      ensures NoSections(i, s)
    {
      forall qs
        ensures !SectionsAt(i, s, qs)
      {
        if SectionsAt(i, s, qs) {
          AnotherPlace(i, s, ps, qs);
          assert false;
        }
      }
    }

    lemma OneMorePlace(i: nat, s: Scope, ps: seq<Place>, x: Place)
      requires PlacesSoFar(i, s, ps) && PlaceAt(i + 1 + 3 * |ps|, x)
      requires |s.places + ps| < LOC_MAX && forall k | 0 <= k < |s.places + ps| :: (s.places + ps)[k].name != x.name
      ensures PlacesSoFar(i, s, ps + [x])
    {
      assert s.places + (ps + [x]) == (s.places + ps) + [x];
      forall qs | SectionsAt(i, s, qs)
        ensures ps + [x] <= qs
      {
        AnotherPlace(i, s, ps, qs);
        assert qs[|ps|] == x;
      }
    }

    /** SECTIONS, its body. A file that ends after `>` is refused by the brace that is missing. */
    method Sections(s: Scope) returns (out: Option<Scope>, ghost ps: seq<Place>)
      requires Valid() && Sound(s)
      modifies this
      ensures Valid() && old(at) <= at
      ensures match out
        case Some(t) => SectionsAt(old(at), s, ps) && t == Extend(s, SectionsItem(ps)) && at == old(at) + 2 + 3 * |ps|
        case None => NoSections(old(at), s)
    {
      ps := [];
      ghost var i := at;
      ghost var short := false;
      var ok := Eat("{");
      if !ok {
        return None, ps;
      }
      var t := s;
      assert s.places + ps == s.places;
      while Peek() != "}"
        invariant Valid() && i < at && (short ==> at == |toks| && NoSections(i, s))
        invariant !short ==>
          at == i + 1 + 3 * |ps| && PlacesSoFar(i, s, ps) && t == Extend(s, SectionsItem(ps))
        decreases |toks| - at
      {
        if at >= |toks| || |t.places| >= LOC_MAX {
          if !short {
            assert at >= |toks| ==> NoNewPlace(at, t.places);
            NoMorePlaces(i, s, ps);
          }
          return None, ps;
        }
        var name := Next();
        if |name| == 0 || name[0] != '.' {
          assert NoNewPlace(i + 1 + 3 * |ps|, t.places);
          NoMorePlaces(i, s, ps);
          return None, ps;
        }
        ok := Eat(">");
        if !ok {
          assert NoNewPlace(i + 1 + 3 * |ps|, t.places);
          NoMorePlaces(i, s, ps);
          return None, ps;
        }
        short := at == |toks|;
        var region := Next();
        var j := Find(t.places, name);
        if short || j < |t.places| {
          assert j < |t.places| ==> t.places[j] in t.places;
          assert NoNewPlace(i + 1 + 3 * |ps|, t.places);
          NoMorePlaces(i, s, ps);
        }
        if j < |t.places| {
          return None, ps;
        }
        var place := Named(name, region);
        if !short {
          OneMorePlace(i, s, ps, place);
          ps := ps + [place];
        }
        t := t.(places := t.places + [place]);
      }
      ok := Eat("}");
      out := Some(t);
    }

    ghost predicate NoItem(i: nat, s: Scope) { forall item :: !ItemAt(i, s, item) }

    /** MEMORY or SECTIONS, if one of them is next. */
    method ScopeItem(s: Scope) returns (handled: bool, out: Option<Scope>, ghost item: Item)
      requires Valid() && Sound(s)
      modifies this
      ensures Valid() && old(at) <= at && handled == (Has(old(at), "MEMORY") || Has(old(at), "SECTIONS"))
      ensures match out
        case Some(t) =>
          if handled then ItemAt(old(at), s, item) && t == Extend(s, item) && at == old(at) + Size(item)
          else at == old(at) && NoItem(at, s) && t == s
        case None => handled && NoItem(old(at), s)
    {
      handled, item := true, MemoryItem([]);
      if Peek() == "MEMORY" {
        at := at + 1;
        ghost var rs;
        out, rs := Memory(s);
        item := MemoryItem(rs);
      } else if Peek() == "SECTIONS" {
        at := at + 1;
        ghost var ps;
        out, ps := Sections(s);
        item := SectionsItem(ps);
      } else {
        handled, out := false, Some(s);
      }
    }

    lemma ItemsAreSingle()
      ensures Single(Items())
    {
      forall i, s, x, y | Items().ok(i, s, x) && Items().ok(i, s, y)
        ensures x == y
      {
        OneItem(i, s, x, y);
      }
    }

    /** A list of items that can go on no further is the only one that can be a body. */
    lemma OneBody(i: nat, s: Scope, items: seq<Item>, qs: seq<Item>)
      requires Chain(Items(), i + 1, s, items) && BodyAt(i, s, qs)
      requires NoItem(Past(Items(), i + 1, items), Built(Items(), s, items))
      ensures qs == items
    {
      ItemsAreSingle();
      LongestChain(Items(), i + 1, s, items, qs);
      LongestChain(Items(), i + 1, s, qs, items);
    }

    lemma ItemKeepsSound(i: nat, s: Scope, item: Item)
      requires Sound(s) && ItemAt(i, s, item)
      ensures Sound(Extend(s, item))
    {
      match item
      case MemoryItem(rs) =>
        forall r | r in s.regions + rs
          ensures RegionOk(r)
        {
          if r in rs {
            var k :| 0 <= k < |rs| && rs[k] == r;
            assert RegionAt(i + 2 + 9 * k, rs[k]);
          }
        }
      case SectionsItem(ps) =>
    }

    ghost predicate NoBody(i: nat, s: Scope) { forall items :: !BodyAt(i, s, items) }

    /** One item of a PROCESSOR block, where nothing else may stand. */
    method BodyItem(s: Scope) returns (out: Option<Scope>, ghost item: Item)
      requires Valid() && Sound(s)
      modifies this
      ensures Valid()
      ensures match out
        case Some(t) => ItemAt(old(at), s, item) && t == Extend(s, item) && Sound(t) && at == old(at) + Size(item)
        case None => old(at) <= at && NoItem(old(at), s)
    {
      item := MemoryItem([]);
      if at >= |toks| {
        return None, item;
      }
      ghost var i := at;
      var handled;
      handled, out, item := ScopeItem(s);
      if out.Some? && handled {
        ItemKeepsSound(i, s, item);
      } else {
        out := None;
      }
    }

    /** The body of a PROCESSOR block. */
    method Body(s: Scope) returns (out: Option<Scope>, ghost items: seq<Item>)
      requires Valid() && Sound(s)
      modifies this
      ensures Valid() && old(at) <= at
      ensures match out
        case Some(t) =>
          && BodyAt(old(at), s, items) && t == Built(Items(), s, items) && Sound(t)
          && at == Past(Items(), old(at) + 1, items) + 1
        case None => NoBody(old(at), s)
    {
      items := [];
      ghost var i := at;
      var ok := Eat("{");
      if !ok {
        return None, items;
      }
      var t := s;
      while Peek() != "}"
        invariant Valid() && i < at && Sound(t) && Has(i, "{") && Chain(Items(), i + 1, s, items)
        invariant at == Past(Items(), i + 1, items) && t == Built(Items(), s, items)
        decreases |toks| - at
      {
        var next;
        ghost var item;
        next, item := BodyItem(t);
        if next.None? {
          NotABody(i, s, items);
          return None, items;
        }
        ChainMore(Items(), i + 1, s, items, item);
        t, items := next.value, items + [item];
      }
      ok := Eat("}");
      out := Some(t);
    }

    lemma NotABody(i: nat, s: Scope, items: seq<Item>)
      requires Chain(Items(), i + 1, s, items) && !Has(Past(Items(), i + 1, items), "}")
      requires NoItem(Past(Items(), i + 1, items), Built(Items(), s, items))
      ensures NoBody(i, s)
    {
      forall qs
        ensures !BodyAt(i, s, qs)
      {
        if BodyAt(i, s, qs) {
          OneBody(i, s, items, qs);
          assert false;
        }
      }
    }

    lemma OneDecl(i: nat, l: Layout, x: Decl, y: Decl)
      requires DeclAt(i, l, x) && DeclAt(i, l, y)
      ensures x == y
    {
      match x
      case Common(item) => OneItem(i, l.board, item, y.item);
      case Processor(name, items) => OneBody(i + 2, Scope(name, [], []), items, y.items);
    }

    ghost predicate NoDecl(i: nat, l: Layout) { forall d :: !DeclAt(i, l, d) }

    ghost predicate NoFile() { forall ds :: !IsFile(ds) }

    /** A list of declarations that can go on no further is the only one the file can be. */
    lemma OneFile(ds: seq<Decl>, qs: seq<Decl>)
      requires Chain(Decls(), 0, EMPTY, ds) && NoDecl(Past(Decls(), 0, ds), LayoutOf(ds)) && IsFile(qs)
      ensures qs == ds
    {
      assert Single(Decls()) by {
        forall i, l, x, y | Decls().ok(i, l, x) && Decls().ok(i, l, y)
          ensures x == y
        {
          OneDecl(i, l, x, y);
        }
      }
      LongestChain(Decls(), 0, EMPTY, ds, qs);
      LongestChain(Decls(), 0, EMPTY, qs, ds);
    }

    lemma NotAFile(ds: seq<Decl>)
      requires Chain(Decls(), 0, EMPTY, ds) && NoDecl(Past(Decls(), 0, ds), LayoutOf(ds)) && !IsFile(ds)
      ensures NoFile()
    {
      forall qs
        ensures !IsFile(qs)
      {
        if IsFile(qs) {
          OneFile(ds, qs);
          assert false;
        }
      }
    }

    /** No CPU twice, no more than there is room for, and every scope sound. */
    ghost predicate Wellformed(l: Layout) {
      && SoundLayout(l) && |l.procs| <= LOC_MAX
      && forall i, j | 0 <= i < j < |l.procs| :: l.procs[i].name != l.procs[j].name
    }

    /** PROCESSOR name { ... }. */
    method Proc(l: Layout) returns (out: Option<Layout>, ghost d: Decl)
      requires Valid() && Has(at, "PROCESSOR") && Wellformed(l)
      modifies this
      ensures Valid() && old(at) < at
      ensures match out
        case Some(t) => DeclAt(old(at), l, d) && t == Declared(l, d) && Wellformed(t) && at == old(at) + DeclSize(d)
        case None => NoDecl(old(at), l)
    {
      d := Processor("", []);
      ghost var i := at;
      at := at + 1;
      if |l.procs| >= LOC_MAX {
        return None, d;
      }
      var name := Next();
      for k := 0 to |l.procs|
        invariant forall j | 0 <= j < k :: l.procs[j].name != name
      {
        if l.procs[k].name == name {
          return None, d;
        }
      }
      var s;
      ghost var items;
      s, items := Body(Scope(name, [], []));
      if s.None? {
        return None, d;
      }
      d := Processor(name, items);
      PastShift(Items(), i + 3, items);
      BuiltKeepsName(Scope(name, [], []), items);
      out := Some(l.(procs := l.procs + [s.value]));
    }

    lemma {:induction false} BuiltKeepsName(s: Scope, items: seq<Item>)
      ensures Built(Items(), s, items).name == s.name
      decreases |items|
    {
      if items != [] {
        BuiltKeepsName(s, items[..|items| - 1]);
      }
    }

    /** One declaration of the file. */
    method Declaration(l: Layout) returns (out: Option<Layout>, ghost d: Decl)
      requires Valid() && at < |toks| && Wellformed(l)
      modifies this
      ensures Valid()
      ensures match out
        case Some(t) => DeclAt(old(at), l, d) && t == Declared(l, d) && Wellformed(t) && at == old(at) + DeclSize(d)
        case None => NoDecl(old(at), l)
    {
      var handled, board;
      ghost var (i, item) := (at, MemoryItem([]));
      handled, board, item := ScopeItem(l.board);
      d := Common(item);
      if board.None? {
        return None, d;
      }
      if handled {
        ItemKeepsSound(i, l.board, item);
        return Some(l.(board := board.value)), d;
      }
      if Peek() != "PROCESSOR" {
        return None, d;
      }
      out, d := Proc(l);
    }

    /** The declarations read so far end at token `i` and declare `l`. */
    ghost predicate ReadSoFar(ds: seq<Decl>, i: nat, l: Layout) {
      Chain(Decls(), 0, EMPTY, ds) && Past(Decls(), 0, ds) == i && LayoutOf(ds) == l
    }

    lemma OneMoreDecl(ds: seq<Decl>, i: nat, l: Layout, d: Decl)
      requires ReadSoFar(ds, i, l) && DeclAt(i, l, d)
      ensures ReadSoFar(ds + [d], i + DeclSize(d), Declared(l, d))
    {
      ChainMore(Decls(), 0, EMPTY, ds, d);
    }

    /** This is what the file is, and nothing else. */
    ghost predicate TheFile(ds: seq<Decl>) { IsFile(ds) && forall qs | IsFile(qs) :: qs == ds }

    /** At the end of the tokens. */
    lemma AtTheEnd(ds: seq<Decl>, l: Layout)
      requires ReadSoFar(ds, |toks|, l)
      ensures if l.board.regions == [] && l.procs == [] then NoFile() else TheFile(ds)
    {
      forall qs | IsFile(qs)
        ensures qs == ds
      {
        OneFile(ds, qs);
      }
    }

    /** The whole file: it is accepted exactly when it is a list of declarations that declare something, and
        gives the layout they declare. */
    method Parse() returns (out: Option<Layout>, ghost ds: seq<Decl>)
      requires Valid() && at == 0
      modifies this
      ensures match out
        case Some(l) => TheFile(ds) && l == LayoutOf(ds) && Wellformed(l)
        case None => NoFile()
    {
      ds := [];
      var l := EMPTY;
      while at < |toks|
        invariant Valid() && Wellformed(l) && ReadSoFar(ds, at, l)
        decreases |toks| - at
      {
        var next;
        ghost var d;
        next, d := Declaration(l);
        if next.None? {
          NotAFile(ds);
          return None, ds;
        }
        OneMoreDecl(ds, Past(Decls(), 0, ds), l, d);
        l, ds := next.value, ds + [d];
      }
      AtTheEnd(ds, l);
      if |l.board.regions| == 0 && |l.procs| == 0 {
        return None, ds;
      }
      out := Some(l);
    }
  }
}
