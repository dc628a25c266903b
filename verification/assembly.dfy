/** The two assembly passes over a source whose lines are read and whose constants are known: straight
    to memory, and to a relocatable object. */
module Assembly {
  import opened Words
  import opened Cpu
  import Memory
  import opened Objects
  import opened Locator
  import opened Linker

  const NULL_GUARD := 4
  const MEM_SIZE := Memory.MEM_SIZE
  const MAX_SYMBOLS := 512

  datatype Operand = Operand(sym: string, addend: int)

  /** An instruction of the source: its fields, and the name one of them stands for. */
  datatype Line = Line(ins: Instr, operand: Option<Operand>)

  datatype Item =
    | Label(name: string) | ToText | ToData
    | Words(values: seq<int32>) | Space(words: nat) | Reserve(bytes: nat)
    | Globals(names: seq<string>) | Code(line: Line)

  datatype Sym = Sym(name: string, value: int, isCode: bool)

  /** What the first pass has built. `ptr` is where the next datum goes. */
  datatype Tables = Tables(
    inData: bool, syms: seq<Sym>, code: seq<Line>, globals: seq<string>, ptr: nat, mem: seq<byte>)

  function Blank(n: nat): (m: seq<byte>)
    ensures |m| == n
  {
    seq(n, i => 0)
  }

  function Start(base: nat): Tables { Tables(false, [], [], [], base, Blank(MEM_SIZE)) }

  predicate Within(u: Tables) {
    && |u.mem| == MEM_SIZE && u.ptr <= MEM_SIZE && |u.code| <= MAX_INSTR && |u.globals| <= MAX_SYMBOLS
  }

  predicate Known(syms: seq<Sym>, name: string) { exists i :: 0 <= i < |syms| && syms[i].name == name }

  /** The table of `.global` names: what does not fit in it is passed over in silence. */
  function Listed(names: seq<string>): seq<string> {
    if |names| <= MAX_SYMBOLS then names else names[..MAX_SYMBOLS]
  }

  function PutWords(u: Tables, values: seq<int32>): (r: Option<Tables>)
    requires Within(u)
    ensures r.Some? ==> Within(r.value)
    decreases |values|
  {
    if values == [] then Some(u)
    else if u.ptr + 4 > MEM_SIZE then None
    else PutWords(u.(mem := Splice(u.mem, u.ptr, Bytes32(values[0])), ptr := u.ptr + 4), values[1..])
  }

  /** One line of the first pass. */
  function Collect(u: Tables, item: Item): (r: Option<Tables>)
    requires Within(u)
    ensures r.Some? ==> Within(r.value)
  {
    match item
    case Label(n) =>
      if |u.syms| >= MAX_SYMBOLS || Known(u.syms, n) then None
      else Some(u.(syms := u.syms + [Sym(n, if u.inData then u.ptr else |u.code|, !u.inData)]))
    case ToText => Some(u.(inData := false))
    case ToData => Some(u.(inData := true))
    case Words(vs) => PutWords(u, vs)
    case Space(w) => if u.ptr + 4 * w > MEM_SIZE then None else Some(u.(ptr := u.ptr + 4 * w))
    case Reserve(n) => if u.ptr + n > MEM_SIZE then None else Some(u.(ptr := u.ptr + n))
    case Globals(ns) => Some(u.(globals := Listed(u.globals + ns)))
    case Code(l) => if |u.code| >= MAX_INSTR then None else Some(u.(code := u.code + [l]))
  }

  function CollectAll(u: Tables, items: seq<Item>): (r: Option<Tables>)
    requires Within(u)
    ensures r.Some? ==> Within(r.value)
    decreases |items|
  {
    if items == [] then Some(u)
    else
      match Collect(u, items[0])
      case None => None
      case Some(v) => CollectAll(v, items[1..])
  }

  // --- the second pass ----------------------------------------------------------------------------------

  predicate IsBranch(op: Op) { op in {BEQ, BNE, BLT, J, JAL, SETHANDLER} }

  /** The field a name goes to, by the opcode. */
  function KindFor(op: Op): RelocKind { if IsBranch(op) then RCode else if op == LI then RAddr else RData }

  function FindSym(syms: seq<Sym>, name: string): (s: Option<Sym>)
    ensures s.Some? ==> s.value in syms && s.value.name == name
    decreases |syms|
  {
    if syms == [] then None else if syms[0].name == name then Some(syms[0]) else FindSym(syms[1..], name)
  }

  /** An instruction with its name resolved on the spot. */
  function EncodeDirect(syms: seq<Sym>, l: Line): Option<Instr> {
    match l.operand
    case None => Some(l.ins)
    case Some(o) =>
      (match FindSym(syms, o.sym)
       case None => None
       case Some(s) => Some(Relocated(l.ins, KindFor(l.ins.op), s.value + o.addend)))
  }

  /** An instruction with a placeholder for its name. */
  function EncodeObject(l: Line): Instr {
    if l.operand.None? then l.ins else Relocated(l.ins, KindFor(l.ins.op), 0)
  }

  function EncodeAll(syms: seq<Sym>, code: seq<Line>): (r: Option<seq<Instr>>)
    ensures r.Some? ==> |r.value| == |code|
    ensures r.Some? ==> forall i | 0 <= i < |code| :: EncodeDirect(syms, code[i]) == Some(r.value[i])
    decreases |code|
  {
    if code == [] then Some([])
    else
      var (front, last) := (EncodeAll(syms, code[..|code| - 1]), EncodeDirect(syms, code[|code| - 1]));
      if front.None? || last.None? then None else Some(front.value + [last.value])
  }

  /** The program and the memory of the direct route. Linkage directives say nothing to it. */
  function Assembled(items: seq<Item>): Option<(seq<Instr>, seq<byte>)> {
    match CollectAll(Start(NULL_GUARD), items)
    case None => None
    case Some(u) =>
      var text := EncodeAll(u.syms, u.code);
      if text.None? then None else Some((text.value, u.mem))
  }

  // --- the object -----------------------------------------------------------------------------------------

  function RelocsOf(code: seq<Line>, n: nat): (rs: seq<Reloc>)
    requires n <= |code|
    ensures forall r | r in rs :: 0 <= r.site < n
    decreases n
  {
    if n == 0 then []
    else
      var l := code[n - 1];
      RelocsOf(code, n - 1) +
      if l.operand.None? then [] else [Reloc(KindFor(l.ins.op), n - 1, l.operand.value.sym, l.operand.value.addend)]
  }

  /** Bytes from a data symbol to the next one of its section, or to the section's end. */
  function SizeTo(syms: seq<Sym>, value: int, end: int): (next: int)
    ensures next <= end && (next == end || exists s :: s in syms && !s.isCode && value < s.value == next)
    ensures forall s | s in syms && !s.isCode && s.value > value :: next <= s.value
    decreases |syms|
  {
    if syms == [] then end
    else
      var rest := SizeTo(syms[1..], value, end);
      if !syms[0].isCode && syms[0].value > value && syms[0].value < rest then syms[0].value else rest
  }

  function SizeOf(syms: seq<Sym>, s: Sym, end: int): int {
    if s.isCode then 0
    else
      var next := SizeTo(syms, s.value, end);
      if next > s.value then next - s.value else 0
  }

  function SymbolOf(u: Tables, s: Sym): Symbol {
    Symbol(s.name, if s.isCode then Text else Data, s.value, SizeOf(u.syms, s, u.ptr),
      if s.name in u.globals then Global else Local, if s.isCode then 1 else 0)
  }

  function SymbolsOf(u: Tables): (ss: seq<Symbol>)
    ensures |ss| == |u.syms|
  {
    seq(|u.syms|, i requires 0 <= i < |u.syms| => SymbolOf(u, u.syms[i]))
  }

  function Placeholders(code: seq<Line>): (text: seq<Instr>)
    ensures |text| == |code|
  {
    seq(|code|, i requires 0 <= i < |code| => EncodeObject(code[i]))
  }

  function ObjectOf(u: Tables): Object
    requires Within(u)
  {
    Object(Placeholders(u.code), u.mem[..u.ptr], 0, SymbolsOf(u), RelocsOf(u.code, |u.code|))
  }

  predicate GlobalsKnown(u: Tables) { forall n | n in u.globals :: Known(u.syms, n) }

  function AssembledObject(items: seq<Item>): Option<Object> {
    match CollectAll(Start(0), items)
    case None => None
    case Some(u) => if GlobalsKnown(u) then Some(ObjectOf(u)) else None
  }

  /** A datum's size ends where the next datum of the section begins, or with the section. */
  lemma SizesAreGaps(u: Tables, i: nat, j: nat)
    requires i < |u.syms| && j < |u.syms| && !u.syms[i].isCode && !u.syms[j].isCode
    requires u.syms[i].value < u.ptr
    ensures var (s, t) := (u.syms[i], u.syms[j]);
      && SizeOf(u.syms, s, u.ptr) > 0 && s.value + SizeOf(u.syms, s, u.ptr) <= u.ptr
      && !(s.value < t.value < s.value + SizeOf(u.syms, s, u.ptr))
      && (s.value == t.value ==> SizeOf(u.syms, s, u.ptr) == SizeOf(u.syms, t, u.ptr))
      && (s.value + SizeOf(u.syms, s, u.ptr) == u.ptr
          || exists d :: d in u.syms && !d.isCode && s.value < d.value == s.value + SizeOf(u.syms, s, u.ptr))
  {
    assert u.syms[j] in u.syms;
  }

  // --- the passes as loops over the tables ----------------------------------------------------------------

  class Assembler {
    var inData: bool
    var syms: seq<Sym>
    var code: seq<Line>
    var globals: seq<string>
    var ptr: nat
    const mem: array<byte>

    ghost predicate Valid()
      reads this, mem
    {
      mem.Length == MEM_SIZE && ptr <= MEM_SIZE && |code| <= MAX_INSTR && |globals| <= MAX_SYMBOLS
    }

    ghost function Contents(): (u: Tables)
      requires Valid()
      reads this, mem
      ensures Within(u)
    {
      Tables(inData, syms, code, globals, ptr, mem[..])
    }

    constructor (base: nat)
      requires base <= MEM_SIZE
      ensures Valid() && fresh(mem) && Contents() == Start(base)
    {
      inData, syms, code, globals, ptr := false, [], [], [], base;
      mem := new byte[MEM_SIZE](i => 0);
      new;
      assert mem[..] == Blank(MEM_SIZE);
    }

    method StoreWord(v: int32)
      requires Valid() && ptr + 4 <= MEM_SIZE
      modifies this`ptr, mem
      ensures Valid()
      ensures var u := old(Contents());
        Contents() == u.(mem := Splice(u.mem, u.ptr, Bytes32(v)), ptr := u.ptr + 4)
    {
      var bs := Bytes32(v);
      for i := 0 to 4
        invariant Valid() && ptr == old(ptr)
        invariant forall a | 0 <= a < MEM_SIZE :: mem[a] == if ptr <= a < ptr + i then bs[a - ptr] else old(mem[a])
      {
        mem[ptr + i] := bs[i];
      }
      assert mem[..] == Splice(old(mem[..]), ptr, bs);
      ptr := ptr + 4;
    }

    method EmitWords(values: seq<int32>) returns (ok: bool)
      requires Valid()
      modifies this`ptr, mem
      ensures Valid()
      ensures var r := PutWords(old(Contents()), values);
        ok == r.Some? && (ok ==> Contents() == r.value)
    {
      for i := 0 to |values|
        invariant Valid() && PutWords(Contents(), values[i..]) == PutWords(old(Contents()), values)
        invariant inData == old(inData) && syms == old(syms) && code == old(code) && globals == old(globals)
      {
        if ptr + 4 > MEM_SIZE {
          return false;
        }
        assert values[i..][1..] == values[i + 1..];
        StoreWord(values[i]);
      }
      ok := true;
    }

    method AddSymbol(name: string) returns (ok: bool)
      requires Valid()
      modifies this`syms
      ensures Valid()
      ensures var r := Collect(old(Contents()), Label(name));
        ok == r.Some? && (ok ==> Contents() == r.value)
    {
      if |syms| >= MAX_SYMBOLS {
        return false;
      }
      for i := 0 to |syms|
        invariant syms == old(syms) && forall k | 0 <= k < i :: syms[k].name != name
      {
        if syms[i].name == name {
          return false;
        }
      }
      syms := syms + [Sym(name, if inData then ptr else |code|, !inData)];
      ok := true;
    }

    method AddGlobals(names: seq<string>)
      requires Valid()
      modifies this`globals
      ensures Valid() && Contents() == old(Contents()).(globals := Listed(old(globals) + names))
    {
      var i := 0;
      while i < |names| && |globals| < MAX_SYMBOLS
        invariant i <= |names| && Valid() && Contents() == old(Contents()).(globals := globals)
        invariant globals == Listed(old(globals) + names[..i]) && (i > 0 ==> globals == old(globals) + names[..i])
      {
        globals := globals + [names[i]];
        i := i + 1;
      }
    }

    /** Pass 1 on one line. */
    method Take(item: Item) returns (ok: bool)
      requires Valid()
      modifies this, mem
      ensures Valid()
      ensures var r := Collect(old(Contents()), item);
        ok == r.Some? && (ok ==> Contents() == r.value)
    {
      ok := true;
      match item {
        case Label(n) => ok := AddSymbol(n);
        case ToText => inData := false;
        case ToData => inData := true;
        case Words(vs) => ok := EmitWords(vs);
        case Space(w) =>
          ok := ptr + 4 * w <= MEM_SIZE;
          if ok {
            ptr := ptr + 4 * w;
          }
        case Reserve(n) =>
          ok := ptr + n <= MEM_SIZE;
          if ok {
            ptr := ptr + n;
          }
        case Globals(ns) => AddGlobals(ns);
        case Code(l) =>
          ok := |code| < MAX_INSTR;
          if ok {
            code := code + [l];
          }
      }
    }

    method PassOne(items: seq<Item>) returns (ok: bool)
      requires Valid()
      modifies this, mem
      ensures Valid()
      ensures var r := CollectAll(old(Contents()), items);
        ok == r.Some? && (ok ==> Contents() == r.value)
    {
      for i := 0 to |items|
        invariant Valid() && CollectAll(Contents(), items[i..]) == CollectAll(old(Contents()), items)
      {
        assert items[i..][1..] == items[i + 1..];
        ok := Take(items[i]);
        if !ok {
          return;
        }
      }
      ok := true;
    }

    method Resolve(name: string) returns (s: Option<Sym>)
      ensures s == FindSym(syms, name)
    {
      for i := 0 to |syms|
        invariant FindSym(syms[i..], name) == FindSym(syms, name)
      {
        assert syms[i..][1..] == syms[i + 1..];
        if syms[i].name == name {
          return Some(syms[i]);
        }
      }
      s := None;
    }

    /** Pass 2, names resolved on the spot. */
    method PassTwoDirect() returns (text: Option<seq<Instr>>)
      ensures text == EncodeAll(syms, code)
    {
      var out := [];
      for i := 0 to |code|
        invariant EncodeAll(syms, code[..i]) == Some(out)
      {
        assert code[..i + 1][..i] == code[..i];
        var l := code[i];
        var ins := l.ins;
        if l.operand.Some? {
          var s := Resolve(l.operand.value.sym);
          if s.None? {
            EncodeFails(syms, code, i);
            return None;
          }
          ins := Relocated(l.ins, KindFor(l.ins.op), s.value.value + l.operand.value.addend);
        }
        out := out + [ins];
      }
      assert code[..|code|] == code;
      text := Some(out);
    }

    /** Pass 2, names recorded as relocations. */
    method PassTwoObject() returns (text: seq<Instr>, relocs: seq<Reloc>)
      ensures text == Placeholders(code)
      ensures relocs == RelocsOf(code, |code|)
    {
      text, relocs := [], [];
      for i := 0 to |code|
        invariant |text| == i && (forall k | 0 <= k < i :: text[k] == EncodeObject(code[k]))
        invariant relocs == RelocsOf(code, i)
      {
        var l := code[i];
        text := text + [EncodeObject(l)];
        if l.operand.Some? {
          relocs := relocs + [Reloc(KindFor(l.ins.op), i, l.operand.value.sym, l.operand.value.addend)];
        }
      }
    }
  }

  lemma {:induction false} EncodeFails(syms: seq<Sym>, code: seq<Line>, i: nat)
    requires i < |code| && EncodeDirect(syms, code[i]).None?
    ensures EncodeAll(syms, code).None?
    decreases |code|
  {
    if i < |code| - 1 {
      EncodeFails(syms, code[..|code| - 1], i);
    }
  }

  /** The direct route. */
  method Assemble(items: seq<Item>) returns (r: Option<(seq<Instr>, seq<byte>)>)
    ensures r == Assembled(items)
  {
    var a := new Assembler(NULL_GUARD);
    var ok := a.PassOne(items);
    if !ok {
      return None;
    }
    var text := a.PassTwoDirect();
    r := if text.None? then None else Some((text.value, a.mem[..]));
  }

  /** The object route. */
  method AssembleObject(items: seq<Item>) returns (r: Option<Object>)
    ensures r == AssembledObject(items)
  {
    var a := new Assembler(0);
    var ok := a.PassOne(items);
    if !ok {
      return None;
    }
    ghost var u := a.Contents();
    for i := 0 to |a.globals|
      invariant forall k | 0 <= k < i :: Known(a.syms, a.globals[k])
    {
      if !(exists j :: 0 <= j < |a.syms| && a.syms[j].name == a.globals[i]) {
        assert a.globals[i] in u.globals && !Known(u.syms, a.globals[i]);
        return None;
      }
    }
    assert GlobalsKnown(u);
    var text, relocs := a.PassTwoObject();
    var tables := Tables(a.inData, a.syms, a.code, a.globals, a.ptr, a.mem[..]);
    r := Some(Object(text, a.mem[..a.ptr], 0, SymbolsOf(tables), relocs));
  }
}
