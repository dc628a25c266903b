/** What one CPU sees of the board, told by names alone: no order, no tables, no replacing. */
module BoardMeaning {
  import opened Locator

  function Names<T>(xs: seq<Named<T>>): set<string> { set i | 0 <= i < |xs| :: xs[i].name }

  /** A block speaks first: the board's declaration of a name counts if the block has none of that name. */
  predicate Counts<T(==)>(board: seq<Named<T>>, block: seq<Named<T>>, x: Named<T>) {
    x in block || (x in board && x.name !in Names(block))
  }

  lemma {:induction false} LookupExactly<T>(xs: seq<Named<T>>, x: Named<T>)
    requires Distinct(xs)
    ensures Lookup(xs, x.name) == Some(x) <==> x in xs
    decreases |xs|
  {
    if xs != [] && xs[0].name != x.name {
      LookupExactly(xs[1..], x);
    } else if x in xs {
      var i :| 0 <= i < |xs| && xs[i] == x;
    }
  }

  lemma LookupKnown<T>(xs: seq<Named<T>>, name: string)
    ensures Lookup(xs, name).Some? <==> name in Names(xs)
  {
  }

  lemma OverriddenCounts<T>(board: seq<Named<T>>, block: seq<Named<T>>, x: Named<T>)
    requires Distinct(board) && Distinct(block)
    ensures x in Overridden(board, block) <==> Counts(board, block, x)
  {
    OverriddenKeeps(board, block);
    Inheritance(board, block, x.name);
    LookupExactly(Overridden(board, block), x);
    LookupExactly(board, x);
    LookupExactly(block, x);
    LookupKnown(block, x.name);
  }

  lemma {:induction false} NamesOfDistinct<T>(xs: seq<Named<T>>)
    requires Distinct(xs)
    ensures |Names(xs)| == |xs|
    decreases |xs|
  {
    if xs != [] {
      NamesOfDistinct(xs[1..]);
      assert Names(xs) == {xs[0].name} + Names(xs[1..]);
    }
  }

  lemma OverriddenNames<T>(board: seq<Named<T>>, block: seq<Named<T>>)
    requires Distinct(board) && Distinct(block)
    ensures Names(Overridden(board, block)) == Names(board) + Names(block)
    ensures |Overridden(board, block)| == |Names(board) + Names(block)|
  {
    var all := Overridden(board, block);
    forall name
      ensures name in Names(all) <==> name in Names(board) + Names(block)
    {
      Inheritance(board, block, name);
      LookupKnown(all, name);
      LookupKnown(board, name);
      LookupKnown(block, name);
    }
    OverriddenKeeps(board, block);
    NamesOfDistinct(all);
  }

  /** The block of a CPU: the only one of its name. */
  predicate IsBlock(l: Layout, cpu: string, p: Scope) {
    p in l.procs && p.name == cpu && forall q | q in l.procs && q.name == cpu :: q == p
  }

  /** The names in use have room. */
  predicate Room(board: Scope, p: Scope) {
    |Names(board.regions) + Names(p.regions)| <= 8 && |Names(board.places) + Names(p.places)| <= 8
  }

  /** Every section goes to a region that is declared. */
  ghost predicate AllFound(board: Scope, p: Scope) {
    forall x | Counts(board.places, p.places, x) :: x.value in Names(board.regions) + Names(p.regions)
  }

  /** Two regions that count, code with code or data with data, have no address in common. */
  ghost predicate AllApart(board: Scope, p: Scope) {
    forall r, q, a | Counts(board.regions, p.regions, r) && Counts(board.regions, p.regions, q)
      && r.value.unit == q.value.unit && Inside(r, a) && Inside(q, a) :: r == q
  }

  lemma ApartExactly(s: Scope)
    requires Sound(s)
    ensures NoOverlap(s) <==> forall r, q, a | r in s.regions && q in s.regions
      && r.value.unit == q.value.unit && Inside(r, a) && Inside(q, a) :: r == q
  {
    if NoOverlap(s) {
      forall r, q, a | r in s.regions && q in s.regions && r.value.unit == q.value.unit && Inside(r, a) && Inside(q, a)
        ensures r == q
      {
        RegionsApart(s, r, q, a);
      }
    } else {
      var i, j :| 0 <= i < j < |s.regions| && Overlap(s.regions[i], s.regions[j]);
      OverlapIsSharedAddress(s.regions[i], s.regions[j]);
    }
  }

  /** With a block the link goes on exactly when names have room, sections have regions and regions are apart,
      of what the block and the board say together; and that is what it sees. */
  lemma ResolvesExactly(l: Layout, cpu: string, p: Scope)
    requires SoundLayout(l) && cpu != "" && IsBlock(l, cpu, p)
    ensures Resolvable(l, cpu) <==> Room(l.board, p) && AllFound(l.board, p) && AllApart(l.board, p)
    ensures forall r :: r in Seen(l, cpu).regions <==> Counts(l.board.regions, p.regions, r)
    ensures forall x :: x in Seen(l, cpu).places <==> Counts(l.board.places, p.places, x)
  {
    var s := Seen(l, cpu);
    forall r
      ensures r in s.regions <==> Counts(l.board.regions, p.regions, r)
    {
      OverriddenCounts(l.board.regions, p.regions, r);
    }
    forall x
      ensures x in s.places <==> Counts(l.board.places, p.places, x)
    {
      OverriddenCounts(l.board.places, p.places, x);
    }
    OverriddenNames(l.board.regions, p.regions);
    OverriddenNames(l.board.places, p.places);
    forall x | x in s.places
      ensures Lookup(s.regions, x.value).Some? <==> x.value in Names(l.board.regions) + Names(p.regions)
    {
      LookupKnown(s.regions, x.value);
    }
    if Fits(s) {
      OverriddenKeeps(l.board.regions, p.regions);
      OverriddenKeeps(l.board.places, p.places);
      ApartExactly(s);
    }
  }

  /** Without one it sees the board as it is, but only if none was asked for or the board has none at all. */
  lemma WithoutBlock(l: Layout, cpu: string)
    requires SoundLayout(l) && (cpu == "" || forall p | p in l.procs :: p.name != cpu)
    ensures Resolvable(l, cpu) <==>
      && (cpu == "" || l.procs == [])
      && (forall x | x in l.board.places :: x.value in Names(l.board.regions))
      && forall r, q, a | r in l.board.regions && q in l.board.regions
           && r.value.unit == q.value.unit && Inside(r, a) && Inside(q, a) :: r == q
    ensures Seen(l, cpu).regions == l.board.regions && Seen(l, cpu).places == l.board.places
  {
    forall x | x in l.board.places
      ensures Lookup(l.board.regions, x.value).Some? <==> x.value in Names(l.board.regions)
    {
      LookupKnown(l.board.regions, x.value);
    }
    ApartExactly(Seen(l, cpu));
  }
}
