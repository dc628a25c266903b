/** Laying parts of given sizes one after the other. */
module Concatenation {

  /** What the first `m` parts take. */
  function Total(sizes: seq<nat>, m: nat): nat
    requires m <= |sizes|
    decreases |sizes|, m
  {
    if m == 0 then 0 else Total(sizes, m - 1) + sizes[m - 1]
  }

  /** The part that holds the p-th unit, and where in it. */
  function Where(sizes: seq<nat>, n: nat, p: nat): (at: (nat, nat))
    requires n <= |sizes| && p < Total(sizes, n)
    ensures at.0 < n && at.1 < sizes[at.0] && Total(sizes, at.0) + at.1 == p
    decreases |sizes|, n
  {
    if p >= Total(sizes, n - 1) then (n - 1, p - Total(sizes, n - 1)) else Where(sizes, n - 1, p)
  }

  lemma {:induction false} TotalGrows(sizes: seq<nat>, m: nat, n: nat)
    requires m <= n <= |sizes|
    ensures Total(sizes, m) <= Total(sizes, n)
    decreases n
  {
    if m < n {
      TotalGrows(sizes, m, n - 1);
    }
  }

  /** Every unit of every part has a place of its own. */
  lemma {:induction false} WhereInverse(sizes: seq<nat>, n: nat, m: nat, i: nat)
    requires m < n <= |sizes| && i < sizes[m]
    ensures Total(sizes, m) + i < Total(sizes, n)
    ensures Where(sizes, n, Total(sizes, m) + i) == (m, i)
    decreases n
  {
    TotalGrows(sizes, m + 1, n);
    if m < n - 1 {
      WhereInverse(sizes, n - 1, m, i);
    }
  }

  function Lengths<T>(parts: seq<seq<T>>): (ls: seq<nat>)
    ensures |ls| == |parts| && forall m | 0 <= m < |parts| :: ls[m] == |parts[m]|
  {
    seq(|parts|, m requires 0 <= m < |parts| => |parts[m]|)
  }

  function PartAt<T>(parts: seq<seq<T>>, p: nat): T
    requires p < Total(Lengths(parts), |parts|)
  {
    var (m, i) := Where(Lengths(parts), |parts|, p);
    parts[m][i]
  }

  lemma OnePart(sizes: seq<nat>, m: nat)
    requires m < |sizes|
    ensures Total(sizes, m + 1) == Total(sizes, m) + sizes[m]
  {
  }

  /** Where each part starts, and where the last one ends. */
  method AssignBases(sizes: seq<nat>, origin: int) returns (bases: seq<int>, end: int)
    ensures |bases| == |sizes| && end == origin + Total(sizes, |sizes|)
    ensures forall m {:trigger bases[m]} | 0 <= m < |sizes| :: bases[m] == origin + Total(sizes, m)
  {
    bases, end := [], origin;
    for m := 0 to |sizes|
      invariant |bases| == m && end == origin + Total(sizes, m)
      invariant forall k {:trigger bases[k]} | 0 <= k < m :: bases[k] == origin + Total(sizes, k)
    {
      OnePart(sizes, m);
      bases := bases + [end];
      end := end + sizes[m];
    }
  }

  method CopyPart<T>(part: seq<T>, base: nat, to: array<T>)
    requires base + |part| <= to.Length
    modifies to
    ensures forall a | 0 <= a < to.Length ::
      to[a] == if base <= a < base + |part| then part[a - base] else old(to[a])
  {
    for j := 0 to |part|
      invariant forall a | 0 <= a < to.Length ::
        to[a] == if base <= a < base + j then part[a - base] else old(to[a])
    {
      to[base + j] := part[j];
    }
  }

  lemma PartPlaced<T>(parts: seq<seq<T>>, m: nat)
    requires m < |parts|
    ensures Total(Lengths(parts), m + 1) == Total(Lengths(parts), m) + |parts[m]| <= Total(Lengths(parts), |parts|)
    ensures forall p: nat | Total(Lengths(parts), m) <= p < Total(Lengths(parts), m + 1) ::
      PartAt(parts, p) == parts[m][p - Total(Lengths(parts), m)]
  {
    var sizes := Lengths(parts);
    TotalGrows(sizes, m + 1, |sizes|);
    forall p: nat | Total(sizes, m) <= p < Total(sizes, m + 1)
      ensures PartAt(parts, p) == parts[m][p - Total(sizes, m)]
    {
      WhereInverse(sizes, |sizes|, m, p - Total(sizes, m));
    }
  }

  /** Copies each part to its base. */
  method Concatenate<T>(parts: seq<seq<T>>, origin: nat, to: array<T>)
    requires to.Length == origin + Total(Lengths(parts), |parts|)
    modifies to
    ensures forall a | 0 <= a < to.Length :: to[a] == if a < origin then old(to[a]) else PartAt(parts, a - origin)
  {
    var sizes := Lengths(parts);
    var bases, end := AssignBases(sizes, origin);
    for m := 0 to |parts|
      invariant forall a | 0 <= a < to.Length && a < origin + Total(sizes, m) ::
        to[a] == if a < origin then old(to[a]) else PartAt(parts, a - origin)
    {
      PartPlaced(parts, m);
      CopyPart(parts[m], bases[m], to);
    }
  }
}

/** Relocatable objects and linked images. */
module Objects {
  import opened Concatenation
  import opened Cpu
  import opened Words

  datatype Section = Text | Data | Shared | NoSection
  datatype Binding = Local | Global | Extern

  /** `offset` counts instructions in the text and bytes elsewhere; `isCode` is 1, 0 or -1. */
  datatype Symbol = Symbol(name: string, section: Section, offset: int, size: int, binding: Binding, isCode: int)

  datatype RelocKind = RCode | RData | RAddr

  /** Instruction `site` gets, in its target or its immediate, the value of `sym` plus `addend`. */
  datatype Reloc = Reloc(kind: RelocKind, site: int, sym: string, addend: int)

  datatype Object = Object(text: seq<Instr>, data: seq<byte>, shared: nat, syms: seq<Symbol>, relocs: seq<Reloc>)

  datatype Image = Image(
    text: seq<Instr>, data: seq<byte>, sharedBase: int, shared: nat, symmap: seq<Symbol>, entry: int)

  /** Every relocation is for an instruction of its own object, as the assembler writes them. */
  predicate WellFormed(o: Object) { forall r | r in o.relocs :: 0 <= r.site < |o.text| }

  function Size(o: Object, sec: Section): nat {
    match sec
    case Text => |o.text|
    case Data => |o.data|
    case Shared => o.shared
    case NoSection => 0
  }

  function Sizes(objs: seq<Object>, sec: Section): (ls: seq<nat>)
    ensures |ls| == |objs| && forall m | 0 <= m < |objs| :: ls[m] == Size(objs[m], sec)
  {
    seq(|objs|, m requires 0 <= m < |objs| => Size(objs[m], sec))
  }

  /** What the first `m` objects hold of a section. */
  function Sum(objs: seq<Object>, sec: Section, m: nat): nat
    requires m <= |objs|
  {
    Total(Sizes(objs, sec), m)
  }

  /** The object and the offset in it of the p-th unit of the concatenated section. */
  function Locate(objs: seq<Object>, sec: Section, p: nat): (at: (nat, nat))
    requires p < Sum(objs, sec, |objs|)
    ensures at.0 < |objs| && at.1 < Size(objs[at.0], sec) && Sum(objs, sec, at.0) + at.1 == p
  {
    Where(Sizes(objs, sec), |objs|, p)
  }

  lemma LocateInverse(objs: seq<Object>, sec: Section, m: nat, i: nat)
    requires m < |objs| && i < Size(objs[m], sec)
    ensures Sum(objs, sec, m) + i < Sum(objs, sec, |objs|)
    ensures Locate(objs, sec, Sum(objs, sec, m) + i) == (m, i)
  {
    WhereInverse(Sizes(objs, sec), |objs|, m, i);
  }
}
