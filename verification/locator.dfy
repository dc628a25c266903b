/** The placement file: the memories of the board, the section each one receives, and what a
    PROCESSOR block changes for one CPU. */
module Locator {

  datatype Option<T> = None | Some(value: T)

  const LOC_MAX := 8

  // Code is addressed by instruction, data by byte: two address spaces.
  datatype Unit = CodeSpace | DataSpace

  datatype Named<T> = Named(name: string, value: T)
  datatype Extent = Extent(unit: Unit, origin: int, length: int)
  type Region = Named<Extent>
  type Place = Named<string>

  datatype Scope = Scope(name: string, regions: seq<Region>, places: seq<Place>)
  datatype Layout = Layout(board: Scope, procs: seq<Scope>)

  function End(r: Region): int { r.value.origin + r.value.length }

  predicate Distinct<T>(xs: seq<Named<T>>) {
    forall i, j | 0 <= i < j < |xs| :: xs[i].name != xs[j].name
  }

  /** What the parser accepts as a region: code starts at 0, no data region does. */
  predicate RegionOk(r: Region) { r.value.length > 0 && (r.value.unit == CodeSpace <==> r.value.origin == 0) }

  predicate Sound(s: Scope) {
    && |s.regions| <= LOC_MAX && |s.places| <= LOC_MAX && Distinct(s.regions) && Distinct(s.places)
    && forall r | r in s.regions :: RegionOk(r)
  }

  predicate SoundLayout(l: Layout) { Sound(l.board) && forall p | p in l.procs :: Sound(p) }

  // --- lookup by name --------------------------------------------------------------------------

  /** The first entry of that name. */
  function Lookup<T>(xs: seq<Named<T>>, name: string): (o: Option<Named<T>>)
    ensures o.Some? ==> o.value in xs && o.value.name == name
    ensures o.None? ==> forall x | x in xs :: x.name != name
    decreases |xs|
  {
    if xs == [] then None else if xs[0].name == name then Some(xs[0]) else Lookup(xs[1..], name)
  }

  function SectionRegion(s: Scope, section: string): (o: Option<Region>)
    ensures o.Some? ==> o.value in s.regions
  {
    match Lookup(s.places, section)
    case Some(p) => Lookup(s.regions, p.value)
    case None => None
  }

  /** The index of the first entry of that name, or the length. */
  method Find<T>(xs: seq<Named<T>>, name: string) returns (i: nat)
    ensures i <= |xs| && (i < |xs| ==> xs[i].name == name)
    ensures forall k | 0 <= k < i :: xs[k].name != name
  {
    i := 0;
    while i < |xs|
      invariant i <= |xs| && forall k | 0 <= k < i :: xs[k].name != name
    {
      if xs[i].name == name {
        return;
      }
      i := i + 1;
    }
  }

  // --- inheritance -----------------------------------------------------------------------------

  function Put<T>(xs: seq<Named<T>>, x: Named<T>): seq<Named<T>>
    decreases |xs|
  {
    if xs == [] then [x] else if xs[0].name == x.name then [x] + xs[1..] else [xs[0]] + Put(xs[1..], x)
  }

  /** `base` with the entries of `changes`: the same name replaces, a new name is added. */
  function Overridden<T>(base: seq<Named<T>>, changes: seq<Named<T>>): seq<Named<T>>
    decreases |changes|
  {
    if changes == [] then base
    else Put(Overridden(base, changes[..|changes| - 1]), changes[|changes| - 1])
  }

  lemma {:induction false} PutAt<T>(xs: seq<Named<T>>, x: Named<T>, i: nat)
    requires i <= |xs| && (i < |xs| ==> xs[i].name == x.name) && forall k | 0 <= k < i :: xs[k].name != x.name
    ensures Put(xs, x) == if i < |xs| then xs[i := x] else xs + [x]
    decreases |xs|
  {
    if i == 0 {
    } else {
      PutAt(xs[1..], x, i - 1);
    }
  }

  lemma {:induction false} PutLookup<T>(xs: seq<Named<T>>, x: Named<T>, name: string)
    ensures Lookup(Put(xs, x), name) == if name == x.name then Some(x) else Lookup(xs, name)
    decreases |xs|
  {
    if xs != [] && xs[0].name != x.name {
      PutLookup(xs[1..], x, name);
    }
  }

  lemma {:induction false} LookupLast<T>(xs: seq<Named<T>>, x: Named<T>, name: string)
    requires forall y | y in xs :: y.name != x.name
    ensures Lookup(xs + [x], name) == if name == x.name then Some(x) else Lookup(xs, name)
    decreases |xs|
  {
    if xs == [] {
      assert xs + [x] == [x];
    } else {
      assert (xs + [x])[1..] == xs[1..] + [x];
      LookupLast(xs[1..], x, name);
    }
  }

  /** A name means what the block says of it, if it says anything, and otherwise what the board says. */
  lemma {:induction false} Inheritance<T>(base: seq<Named<T>>, changes: seq<Named<T>>, name: string)
    requires Distinct(changes)
    ensures Lookup(Overridden(base, changes), name) ==
      if Lookup(changes, name).Some? then Lookup(changes, name) else Lookup(base, name)
    decreases |changes|
  {
    if changes != [] {
      var (front, last) := (changes[..|changes| - 1], changes[|changes| - 1]);
      assert changes == front + [last];
      Inheritance(base, front, name);
      PutLookup(Overridden(base, front), last, name);
      LookupLast(front, last, name);
    }
  }

  lemma {:induction false} PutKeeps<T>(xs: seq<Named<T>>, x: Named<T>)
    ensures |xs| <= |Put(xs, x)| <= |xs| + 1
    ensures forall y | y in Put(xs, x) :: y == x || y in xs
    ensures Distinct(xs) ==> Distinct(Put(xs, x))
  {
    var i := 0;
    while i < |xs| && xs[i].name != x.name
      invariant i <= |xs| && forall k | 0 <= k < i :: xs[k].name != x.name
    {
      i := i + 1;
    }
    PutAt(xs, x, i);
  }

  lemma {:induction false} OverriddenKeeps<T>(base: seq<Named<T>>, changes: seq<Named<T>>)
    ensures |base| <= |Overridden(base, changes)|
    ensures forall y | y in Overridden(base, changes) :: y in base || y in changes
    ensures Distinct(base) ==> Distinct(Overridden(base, changes))
    decreases |changes|
  {
    if changes != [] {
      OverriddenKeeps(base, changes[..|changes| - 1]);
      PutKeeps(Overridden(base, changes[..|changes| - 1]), changes[|changes| - 1]);
    }
  }

  lemma {:induction false} OverriddenGrows<T>(base: seq<Named<T>>, changes: seq<Named<T>>, i: nat)
    requires i <= |changes|
    ensures |Overridden(base, changes[..i])| <= |Overridden(base, changes)|
    decreases |changes|
  {
    if i < |changes| {
      var front := changes[..|changes| - 1];
      assert front[..i] == changes[..i];
      OverriddenGrows(base, front, i);
      PutKeeps(Overridden(base, front), changes[|changes| - 1]);
    } else {
      assert changes[..i] == changes;
    }
  }

  /** Replaces and appends in place, and gives up when the table is full. */
  method Override<T>(base: seq<Named<T>>, changes: seq<Named<T>>) returns (out: Option<seq<Named<T>>>)
    requires |base| <= LOC_MAX
    ensures out == if |Overridden(base, changes)| <= LOC_MAX then Some(Overridden(base, changes)) else None
  {
    var table := base;
    for i := 0 to |changes|
      invariant table == Overridden(base, changes[..i]) && |table| <= LOC_MAX
    {
      var j := Find(table, changes[i].name);
      PutAt(table, changes[i], j);
      assert changes[..i + 1][..i] == changes[..i];
      OverriddenGrows(base, changes, i + 1);
      if j == |table| {
        if |table| >= LOC_MAX {
          return None;
        }
        table := table + [changes[i]];
      } else {
        table := table[j := changes[i]];
      }
    }
    assert changes[..|changes|] == changes;
    out := Some(table);
  }

  // --- resolution ------------------------------------------------------------------------------

  function BlockOf(procs: seq<Scope>, cpu: string): (o: Option<Scope>)
    ensures o.Some? ==> o.value in procs && o.value.name == cpu
    ensures o.None? ==> forall p | p in procs :: p.name != cpu
  {
    if procs == [] then None else if procs[0].name == cpu then Some(procs[0]) else BlockOf(procs[1..], cpu)
  }

  /** The board as one CPU sees it. No block at all means "as the board". */
  function Seen(l: Layout, cpu: string): Scope {
    match BlockOf(l.procs, cpu)
    case Some(p) =>
      if cpu == "" then l.board.(name := "")
      else Scope(cpu, Overridden(l.board.regions, p.regions), Overridden(l.board.places, p.places))
    case None => l.board.(name := "")
  }

  predicate AllPlaced(s: Scope) { forall p | p in s.places :: Lookup(s.regions, p.value).Some? }

  predicate Overlap(a: Region, b: Region) {
    a.value.unit == b.value.unit && a.value.origin < End(b) && b.value.origin < End(a)
  }

  predicate NoOverlap(s: Scope) {
    forall i, j | 0 <= i < j < |s.regions| :: !Overlap(s.regions[i], s.regions[j])
  }

  predicate Declared(l: Layout, cpu: string) { cpu == "" || l.procs == [] || BlockOf(l.procs, cpu).Some? }

  predicate Fits(s: Scope) { |s.regions| <= LOC_MAX && |s.places| <= LOC_MAX }

  predicate Resolvable(l: Layout, cpu: string) {
    Declared(l, cpu) && Fits(Seen(l, cpu)) && AllPlaced(Seen(l, cpu)) && NoOverlap(Seen(l, cpu))
  }

  method FindBlock(procs: seq<Scope>, cpu: string) returns (block: Option<Scope>)
    ensures block == BlockOf(procs, cpu)
  {
    var i := 0;
    while i < |procs|
      invariant i <= |procs| && BlockOf(procs[i..], cpu) == BlockOf(procs, cpu)
    {
      assert procs[i..][1..] == procs[i + 1..];
      if procs[i].name == cpu {
        return Some(procs[i]);
      }
      i := i + 1;
    }
    block := None;
  }

  method CheckPlaces(s: Scope) returns (ok: bool)
    ensures ok == AllPlaced(s)
  {
    for i := 0 to |s.places|
      invariant forall k | 0 <= k < i :: Lookup(s.regions, s.places[k].value).Some?
    {
      var j := Find(s.regions, s.places[i].value);
      if j == |s.regions| {
        assert s.places[i] in s.places && Lookup(s.regions, s.places[i].value).None?;
        return false;
      }
      assert s.regions[j] in s.regions;
    }
    ok := true;
  }

  method CheckOverlap(s: Scope) returns (ok: bool)
    ensures ok == NoOverlap(s)
  {
    for i := 0 to |s.regions|
      invariant forall a, b | 0 <= a < b < |s.regions| && a < i :: !Overlap(s.regions[a], s.regions[b])
    {
      for j := i + 1 to |s.regions|
        invariant forall a, b | 0 <= a < b < |s.regions| && a < i :: !Overlap(s.regions[a], s.regions[b])
        invariant forall b | i < b < j :: !Overlap(s.regions[i], s.regions[b])
      {
        var (a, b) := (s.regions[i], s.regions[j]);
        if a.value.unit == b.value.unit && a.value.origin < End(b) && b.value.origin < End(a) {
          return false;
        }
      }
    }
    ok := true;
  }

  /** `cpu` is empty when the link names no processor. */
  method Resolve(l: Layout, cpu: string) returns (out: Option<Scope>)
    requires SoundLayout(l)
    ensures out == if Resolvable(l, cpu) then Some(Seen(l, cpu)) else None
  {
    var s := l.board.(name := "");
    if cpu != "" {
      var block := FindBlock(l.procs, cpu);
      if block.None? {
        if |l.procs| > 0 {
          return None;
        }
      } else {
        var regions := Override(s.regions, block.value.regions);
        if regions.None? {
          return None;
        }
        var places := Override(s.places, block.value.places);
        if places.None? {
          return None;
        }
        s := Scope(cpu, regions.value, places.value);
      }
    }
    var placed := CheckPlaces(s);
    var apart := CheckOverlap(s);
    out := if placed && apart then Some(s) else None;
  }

  lemma ResolvedIsSound(l: Layout, cpu: string)
    requires SoundLayout(l) && Resolvable(l, cpu)
    ensures Sound(Seen(l, cpu))
  {
    match BlockOf(l.procs, cpu)
    case None =>
    case Some(p) =>
      assert p in l.procs;
      OverriddenKeeps(l.board.regions, p.regions);
      OverriddenKeeps(l.board.places, p.places);
  }

  /** What a name means after a successful resolution: the block's declaration if there is one and
      otherwise the board's; and a section that is placed lands in a region of the scope. */
  lemma ResolvedName(l: Layout, cpu: string, p: Scope, name: string)
    requires SoundLayout(l) && Resolvable(l, cpu) && cpu != "" && BlockOf(l.procs, cpu) == Some(p)
    ensures var s := Seen(l, cpu);
      && Lookup(s.regions, name) ==
           (if Lookup(p.regions, name).Some? then Lookup(p.regions, name) else Lookup(l.board.regions, name))
      && Lookup(s.places, name) ==
           (if Lookup(p.places, name).Some? then Lookup(p.places, name) else Lookup(l.board.places, name))
      && (Lookup(s.places, name).Some? ==> SectionRegion(s, name).Some?)
  {
    assert p in l.procs;
    Inheritance(l.board.regions, p.regions, name);
    Inheritance(l.board.places, p.places, name);
  }

  predicate Inside(r: Region, a: int) { r.value.origin <= a < End(r) }

  /** The check is exact: it fires on two regions of the same space when and only when they have an
      address in common. */
  lemma OverlapIsSharedAddress(a: Region, b: Region)
    requires a.value.unit == b.value.unit && RegionOk(a) && RegionOk(b)
    ensures Overlap(a, b) <==> exists x :: Inside(a, x) && Inside(b, x)
  {
    if Overlap(a, b) {
      var x := if a.value.origin < b.value.origin then b.value.origin else a.value.origin;
      assert Inside(a, x) && Inside(b, x);
    }
  }

  lemma RegionsApart(s: Scope, r: Region, q: Region, x: int)
    requires Sound(s) && NoOverlap(s) && r in s.regions && q in s.regions && r.value.unit == q.value.unit
    requires Inside(r, x) && Inside(q, x)
    ensures r == q
  {
    var i :| 0 <= i < |s.regions| && s.regions[i] == r;
    var j :| 0 <= j < |s.regions| && s.regions[j] == q;
  }
}
