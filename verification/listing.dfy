/** What a source says, counted on its lines alone: how far each line is, what its label stands for, where
    its data lie. Both assembly routes are held against it. */
module SourceMeaning {
  import opened Words
  import opened Cpu
  import opened Objects
  import opened Locator
  import opened Assembly

  // --- counting lines ---------------------------------------------------------------------------------

  function CodeBefore(items: seq<Item>, i: nat): nat
    requires i <= |items|
  {
    if i == 0 then 0 else CodeBefore(items, i - 1) + if items[i - 1].Code? then 1 else 0
  }

  function LabelsBefore(items: seq<Item>, i: nat): nat
    requires i <= |items|
  {
    if i == 0 then 0 else LabelsBefore(items, i - 1) + if items[i - 1].Label? then 1 else 0
  }

  function BytesOf(item: Item): nat {
    match item
    case Words(vs) => 4 * |vs|
    case Space(w) => 4 * w
    case Reserve(n) => n
    case _ => 0
  }

  function BytesBefore(items: seq<Item>, i: nat): nat
    requires i <= |items|
  {
    if i == 0 then 0 else BytesBefore(items, i - 1) + BytesOf(items[i - 1])
  }

  /** The section line i is in: the last directive says, and the text comes first. */
  predicate InData(items: seq<Item>, i: nat)
    requires i <= |items|
  {
    i > 0 && (items[i - 1].ToData? || (!items[i - 1].ToText? && InData(items, i - 1)))
  }

  /** The names of the `.global` lines before line i. */
  function GlobalsBefore(items: seq<Item>, i: nat): seq<string>
    requires i <= |items|
  {
    if i == 0 then [] else GlobalsBefore(items, i - 1) + if items[i - 1].Globals? then items[i - 1].names else []
  }

  /** What a label at line i stands for: the instruction that comes next, or the byte that comes next when
      the data begin at `base`. */
  function Stands(items: seq<Item>, i: nat, base: nat): nat
    requires i <= |items|
  {
    if InData(items, i) then base + BytesBefore(items, i) else CodeBefore(items, i)
  }

  lemma {:induction false} CountsGrow(items: seq<Item>, i: nat, j: nat)
    requires i <= j <= |items|
    ensures CodeBefore(items, i) <= CodeBefore(items, j) && LabelsBefore(items, i) <= LabelsBefore(items, j)
    ensures BytesBefore(items, i) <= BytesBefore(items, j)
    decreases j
  {
    if i < j {
      CountsGrow(items, i, j - 1);
    }
  }

  // --- data --------------------------------------------------------------------------------------------------

  /** The word at an address, as a load would find it. */
  predicate HoldsWord(mem: seq<byte>, at: nat, x: int32) {
    at + 4 <= |mem| && Wrap32(Number(mem[at..at + 4])) == x
  }

  ghost predicate HoldsWords(mem: seq<byte>, at: nat, xs: seq<int32>) {
    forall j | 0 <= j < |xs| :: HoldsWord(mem, at + 4 * j, xs[j])
  }

  predicate SameOutside(mem: seq<byte>, was: seq<byte>, at: nat, end: nat) {
    |mem| == |was| && forall a | 0 <= a < |mem| && !(at <= a < end) :: mem[a] == was[a]
  }

  lemma WordPut(mem: seq<byte>, at: nat, x: int32)
    requires at + 4 <= |mem|
    ensures HoldsWord(Splice(mem, at, Bytes32(x)), at, x)
    ensures SameOutside(Splice(mem, at, Bytes32(x)), mem, at, at + 4)
  {
    assert Splice(mem, at, Bytes32(x))[at..at + 4] == Bytes32(x);
    Word32RoundTrip(x);
  }

  lemma WordKept(mem: seq<byte>, was: seq<byte>, at: nat, end: nat, a: nat, x: int32)
    requires SameOutside(mem, was, at, end) && HoldsWord(was, a, x) && (a + 4 <= at || end <= a)
    ensures HoldsWord(mem, a, x)
  {
    assert mem[a..a + 4] == was[a..a + 4];
  }

  lemma OneWordFirst(mem: seq<byte>, was: seq<byte>, at: nat, xs: seq<int32>)
    requires xs != [] && HoldsWord(was, at, xs[0]) && HoldsWords(mem, at + 4, xs[1..])
    requires SameOutside(mem, was, at + 4, at + 4 * |xs|)
    ensures HoldsWords(mem, at, xs)
  {
    WordKept(mem, was, at + 4, at + 4 * |xs|, at, xs[0]);
    forall j | 0 <= j < |xs|
      ensures HoldsWord(mem, at + 4 * j, xs[j])
    {
      if j > 0 {
        assert HoldsWord(mem, at + 4 + 4 * (j - 1), xs[1..][j - 1]);
      }
    }
  }

  /** A list of words is stored exactly when there is room, one after another, and nothing else changes. */
  lemma {:induction false} WordsPut(u: Tables, xs: seq<int32>)
    requires Within(u)
    ensures var r := PutWords(u, xs);
      && (r.Some? <==> u.ptr + 4 * |xs| <= MEM_SIZE)
      && (r.Some? ==>
            && r.value == u.(mem := r.value.mem, ptr := u.ptr + 4 * |xs|)
            && HoldsWords(r.value.mem, u.ptr, xs) && SameOutside(r.value.mem, u.mem, u.ptr, u.ptr + 4 * |xs|))
    decreases |xs|
  {
    if xs != [] && u.ptr + 4 <= MEM_SIZE {
      var v := u.(mem := Splice(u.mem, u.ptr, Bytes32(xs[0])), ptr := u.ptr + 4);
      WordPut(u.mem, u.ptr, xs[0]);
      WordsPut(v, xs[1..]);
      var r := PutWords(v, xs[1..]);
      if r.Some? {
        OneWordFirst(r.value.mem, v.mem, u.ptr, xs);
      }
    }
  }

  // --- what the first pass has built by line i ---------------------------------------------------------------

  predicate Counted(items: seq<Item>, i: nat, base: nat, u: Tables)
    requires i <= |items|
  {
    && u.inData == InData(items, i) && u.ptr == base + BytesBefore(items, i)
    && |u.code| == CodeBefore(items, i) && |u.syms| == LabelsBefore(items, i)
    && u.globals == Listed(GlobalsBefore(items, i))
  }

  /** The label of line k, in its place in the table. */
  predicate LabelKept(items: seq<Item>, k: nat, base: nat, syms: seq<Sym>)
    requires k < |items| && items[k].Label?
  {
    var at := LabelsBefore(items, k);
    at < |syms| && syms[at] == Sym(items[k].name, Stands(items, k, base), !InData(items, k))
  }

  ghost predicate LabelsKept(items: seq<Item>, i: nat, base: nat, syms: seq<Sym>)
    requires i <= |items|
  {
    forall k | 0 <= k < i && items[k].Label? :: LabelKept(items, k, base, syms)
  }

  predicate CodeKept(items: seq<Item>, k: nat, code: seq<Line>)
    requires k < |items| && items[k].Code?
  {
    CodeBefore(items, k) < |code| && code[CodeBefore(items, k)] == items[k].line
  }

  ghost predicate CodesKept(items: seq<Item>, i: nat, code: seq<Line>)
    requires i <= |items|
  {
    forall k | 0 <= k < i && items[k].Code? :: CodeKept(items, k, code)
  }

  predicate WordsAt(items: seq<Item>, k: nat, base: nat, a: int)
    requires k < |items|
  {
    items[k].Words? && base + BytesBefore(items, k) <= a < base + BytesBefore(items, k + 1)
  }

  /** No line puts a word over that byte. */
  ghost predicate Untouched(items: seq<Item>, i: nat, base: nat, a: int)
    requires i <= |items|
  {
    forall k | 0 <= k < i :: !WordsAt(items, k, base, a)
  }

  ghost predicate DataKept(items: seq<Item>, k: nat, base: nat, mem: seq<byte>)
    requires k < |items| && items[k].Words?
  {
    HoldsWords(mem, base + BytesBefore(items, k), items[k].values)
  }

  ghost predicate RestBlank(items: seq<Item>, i: nat, base: nat, mem: seq<byte>)
    requires i <= |items|
  {
    forall a | 0 <= a < |mem| && Untouched(items, i, base, a) :: mem[a] == 0
  }

  ghost predicate MemoryKept(items: seq<Item>, i: nat, base: nat, mem: seq<byte>)
    requires i <= |items|
  {
    && |mem| == MEM_SIZE && (forall k | 0 <= k < i && items[k].Words? :: DataKept(items, k, base, mem))
    && RestBlank(items, i, base, mem)
  }

  ghost predicate Reached(items: seq<Item>, i: nat, base: nat, u: Tables)
    requires i <= |items|
  {
    && Within(u) && Counted(items, i, base, u)
    && LabelsKept(items, i, base, u.syms) && CodesKept(items, i, u.code)
  }

  lemma CountedStep(items: seq<Item>, i: nat, base: nat, u: Tables)
    requires i < |items| && Within(u) && Counted(items, i, base, u) && Collect(u, items[i]).Some?
    ensures Counted(items, i + 1, base, Collect(u, items[i]).value)
  {
    match items[i]
    case Words(vs) => WordsPut(u, vs);
    case _ =>
  }

  lemma LabelsStep(items: seq<Item>, i: nat, base: nat, u: Tables)
    requires i < |items| && Within(u) && Counted(items, i, base, u) && LabelsKept(items, i, base, u.syms)
    requires Collect(u, items[i]).Some?
    ensures LabelsKept(items, i + 1, base, Collect(u, items[i]).value.syms)
  {
    var v := Collect(u, items[i]).value;
    match items[i]
    case Words(vs) => WordsPut(u, vs);
    case _ =>
    assert u.syms <= v.syms;
    forall k | 0 <= k < i + 1 && items[k].Label?
      ensures LabelKept(items, k, base, v.syms)
    {
      assert k < i ==> LabelKept(items, k, base, u.syms);
    }
  }

  lemma CodesStep(items: seq<Item>, i: nat, base: nat, u: Tables)
    requires i < |items| && Within(u) && Counted(items, i, base, u) && CodesKept(items, i, u.code)
    requires Collect(u, items[i]).Some?
    ensures CodesKept(items, i + 1, Collect(u, items[i]).value.code)
  {
    var v := Collect(u, items[i]).value;
    match items[i]
    case Words(vs) => WordsPut(u, vs);
    case _ =>
    assert u.code <= v.code;
    forall k | 0 <= k < i + 1 && items[k].Code?
      ensures CodeKept(items, k, v.code)
    {
      assert k < i ==> CodeKept(items, k, u.code);
    }
  }

  lemma MemoryStep(items: seq<Item>, i: nat, base: nat, u: Tables)
    requires i < |items| && Within(u) && Counted(items, i, base, u) && MemoryKept(items, i, base, u.mem)
    requires Collect(u, items[i]).Some?
    ensures MemoryKept(items, i + 1, base, Collect(u, items[i]).value.mem)
  {
    var v := Collect(u, items[i]).value;
    if items[i].Words? {
      WordsPut(u, items[i].values);
    } else {
      assert v.mem == u.mem;
    }
    var end := if items[i].Words? then u.ptr + 4 * |items[i].values| else u.ptr;
    forall k | 0 <= k < i + 1 && items[k].Words?
      ensures DataKept(items, k, base, v.mem)
    {
      if k < i {
        DataStays(items, k, i, base, u.mem, v.mem, end);
      }
    }
    RestStaysBlank(items, i, base, u.mem, v.mem, end);
  }

  lemma DataStays(items: seq<Item>, k: nat, i: nat, base: nat, was: seq<byte>, mem: seq<byte>, end: nat)
    requires k < i < |items| && items[k].Words? && DataKept(items, k, base, was)
    requires SameOutside(mem, was, base + BytesBefore(items, i), end)
    ensures DataKept(items, k, base, mem)
  {
    CountsGrow(items, k + 1, i);
    WordsKept(mem, was, base + BytesBefore(items, i), end, base + BytesBefore(items, k), items[k].values);
  }

  lemma RestStaysBlank(items: seq<Item>, i: nat, base: nat, was: seq<byte>, mem: seq<byte>, end: nat)
    requires i < |items| && RestBlank(items, i, base, was)
    requires SameOutside(mem, was, base + BytesBefore(items, i), end)
    requires end == if items[i].Words? then base + BytesBefore(items, i + 1) else base + BytesBefore(items, i)
    ensures RestBlank(items, i + 1, base, mem)
  {
    forall a | 0 <= a < |mem| && Untouched(items, i + 1, base, a)
      ensures mem[a] == 0
    {
      assert !WordsAt(items, i, base, a) && Untouched(items, i, base, a);
      assert was[a] == 0;
    }
  }

  lemma WordsKept(mem: seq<byte>, was: seq<byte>, at: nat, end: nat, a: nat, xs: seq<int32>)
    requires SameOutside(mem, was, at, end) && HoldsWords(was, a, xs) && a + 4 * |xs| <= at
    ensures HoldsWords(mem, a, xs)
  {
    forall j | 0 <= j < |xs|
      ensures HoldsWord(mem, a + 4 * j, xs[j])
    {
      WordKept(mem, was, at, end, a + 4 * j, xs[j]);
    }
  }

  lemma {:induction false} CollectPrefix(u: Tables, items: seq<Item>, i: nat)
    requires Within(u) && i < |items|
    ensures var r := CollectAll(u, items[..i]);
      CollectAll(u, items[..i + 1]) == if r.None? then None else Collect(r.value, items[i])
    decreases i
  {
    assert items[..i + 1][1..] == items[1..][..i];
    if i > 0 {
      assert items[..i][1..] == items[1..][..i - 1] && items[..i][0] == items[0];
      var v := Collect(u, items[0]);
      if v.Some? {
        CollectPrefix(v.value, items[1..], i - 1);
      }
    }
  }

  /** After any accepted beginning of a source the tables say of its lines what counting says. */
  lemma {:induction false} PassReaches(items: seq<Item>, i: nat, base: nat)
    requires i <= |items| && base <= MEM_SIZE && CollectAll(Start(base), items[..i]).Some?
    ensures Reached(items, i, base, CollectAll(Start(base), items[..i]).value)
    ensures MemoryKept(items, i, base, CollectAll(Start(base), items[..i]).value.mem)
    decreases i
  {
    if i > 0 {
      CollectPrefix(Start(base), items, i - 1);
      PassReaches(items, i - 1, base);
      var u := CollectAll(Start(base), items[..i - 1]).value;
      CountedStep(items, i - 1, base, u);
      LabelsStep(items, i - 1, base, u);
      CodesStep(items, i - 1, base, u);
      MemoryStep(items, i - 1, base, u);
    }
  }

  // --- which sources the first pass accepts --------------------------------------------------------------------

  predicate LabelledAt(items: seq<Item>, k: int, name: string) { 0 <= k < |items| && items[k] == Label(name) }

  ghost predicate Labelled(items: seq<Item>, name: string) { exists k :: LabelledAt(items, k, name) }

  /** Two of the first lines have one label. */
  ghost predicate LabelledTwice(items: seq<Item>, i: nat) {
    exists k, l, name :: k < l < i && LabelledAt(items, k, name) && LabelledAt(items, l, name)
  }

  /** The first lines fit the memory, the program and the table of labels. */
  predicate Fitting(items: seq<Item>, i: nat, base: nat)
    requires i <= |items|
  {
    && base + BytesBefore(items, i) <= 0x10_0000 && CodeBefore(items, i) <= 4096 && LabelsBefore(items, i) <= 512
  }

  lemma {:induction false} LabelOfPlace(items: seq<Item>, i: nat, a: nat) returns (k: nat)
    requires i <= |items| && a < LabelsBefore(items, i)
    ensures k < i && items[k].Label? && LabelsBefore(items, k) == a
    decreases i
  {
    if a == LabelsBefore(items, i - 1) {
      k := i - 1;
    } else {
      k := LabelOfPlace(items, i - 1, a);
    }
  }

  /** A name is in the table exactly when a line before has it as its label. */
  lemma KnownExactly(items: seq<Item>, i: nat, base: nat, u: Tables, name: string)
    requires i <= |items| && Reached(items, i, base, u)
    ensures Known(u.syms, name) <==> exists k :: k < i && LabelledAt(items, k, name)
  {
    if Known(u.syms, name) {
      var a :| 0 <= a < |u.syms| && u.syms[a].name == name;
      var k := LabelOfPlace(items, i, a);
      assert LabelKept(items, k, base, u.syms);
      assert LabelledAt(items, k, name);
    }
    if k :| k < i && LabelledAt(items, k, name) {
      assert LabelKept(items, k, base, u.syms);
    }
  }

  lemma StepAccepts(items: seq<Item>, i: nat, base: nat, u: Tables)
    requires i < |items| && Reached(items, i, base, u) && Fitting(items, i, base) && !LabelledTwice(items, i)
    ensures Collect(u, items[i]).Some? <==> Fitting(items, i + 1, base) && !LabelledTwice(items, i + 1)
  {
    match items[i]
    case Label(n) =>
      KnownExactly(items, i, base, u, n);
      OneLabelMore(items, i, n);
    case Words(vs) =>
      WordsPut(u, vs);
      NoLabelMore(items, i);
    case _ => NoLabelMore(items, i);
  }

  lemma OneLabelMore(items: seq<Item>, i: nat, n: string)
    requires LabelledAt(items, i, n) && !LabelledTwice(items, i)
    ensures LabelledTwice(items, i + 1) <==> exists k :: k < i && LabelledAt(items, k, n)
  {
    if LabelledTwice(items, i + 1) {
      var k, l, name :| k < l < i + 1 && LabelledAt(items, k, name) && LabelledAt(items, l, name);
      assert l == i;
    }
  }

  lemma NoLabelMore(items: seq<Item>, i: nat)
    requires i < |items| && !items[i].Label? && !LabelledTwice(items, i)
    ensures !LabelledTwice(items, i + 1)
  {
    if LabelledTwice(items, i + 1) {
      var k, l, name :| k < l < i + 1 && LabelledAt(items, k, name) && LabelledAt(items, l, name);
      assert false;
    }
  }

  lemma FewerLines(items: seq<Item>, i: nat, base: nat)
    requires i < |items|
    ensures Fitting(items, i + 1, base) && !LabelledTwice(items, i + 1) ==>
      Fitting(items, i, base) && !LabelledTwice(items, i)
  {
    if LabelledTwice(items, i) {
      var k, l, name :| k < l < i && LabelledAt(items, k, name) && LabelledAt(items, l, name);
      assert l < i + 1;
    }
  }

  /** The first pass accepts exactly the sources that fit and label nothing twice. */
  lemma {:induction false} PassAccepts(items: seq<Item>, i: nat, base: nat)
    requires i <= |items| && base <= MEM_SIZE
    ensures CollectAll(Start(base), items[..i]).Some? <==> Fitting(items, i, base) && !LabelledTwice(items, i)
    decreases i
  {
    if i > 0 {
      PassAccepts(items, i - 1, base);
      CollectPrefix(Start(base), items, i - 1);
      FewerLines(items, i - 1, base);
      if CollectAll(Start(base), items[..i - 1]).Some? {
        PassReaches(items, i - 1, base);
        StepAccepts(items, i - 1, base, CollectAll(Start(base), items[..i - 1]).value);
      }
    }
  }

  // --- the direct route --------------------------------------------------------------------------------------------

  /** The operands of all instructions are labels. */
  ghost predicate OperandsLabelled(items: seq<Item>) {
    forall k | 0 <= k < |items| && items[k].Code? && items[k].line.operand.Some? ::
      Labelled(items, items[k].line.operand.value.sym)
  }

  lemma {:induction false} FindFirst(syms: seq<Sym>, j: nat)
    requires j < |syms| && forall i | 0 <= i < j :: syms[i].name != syms[j].name
    ensures FindSym(syms, syms[j].name) == Some(syms[j])
  {
    if j > 0 {
      FindFirst(syms[1..], j - 1);
    }
  }

  /** What the tables say of a label. */
  lemma FindLabel(items: seq<Item>, base: nat, u: Tables, m: nat)
    requires Reached(items, |items|, base, u) && !LabelledTwice(items, |items|) && m < |items| && items[m].Label?
    ensures FindSym(u.syms, items[m].name) == Some(Sym(items[m].name, Stands(items, m, base), !InData(items, m)))
  {
    assert LabelKept(items, m, base, u.syms);
    var at := LabelsBefore(items, m);
    forall a | 0 <= a < at
      ensures u.syms[a].name != u.syms[at].name
    {
      var k := LabelOfPlace(items, m, a);
      assert LabelKept(items, k, base, u.syms);
      assert LabelledAt(items, k, u.syms[a].name) && LabelledAt(items, m, u.syms[at].name);
    }
    FindFirst(u.syms, at);
  }

  lemma FindExactly(items: seq<Item>, base: nat, u: Tables, name: string)
    requires Reached(items, |items|, base, u)
    ensures FindSym(u.syms, name).Some? <==> Labelled(items, name)
  {
    KnownExactly(items, |items|, base, u, name);
    var s := FindSym(u.syms, name);
    if s.Some? {
      var a :| 0 <= a < |u.syms| && u.syms[a] == s.value;
      assert Known(u.syms, name);
    }
    if Known(u.syms, name) {
      var a :| 0 <= a < |u.syms| && u.syms[a].name == name;
      NotFound(u.syms, name, a);
    }
  }

  lemma {:induction false} NotFound(syms: seq<Sym>, name: string, a: nat)
    requires a < |syms| && syms[a].name == name
    ensures FindSym(syms, name).Some?
  {
    if a > 0 {
      NotFound(syms[1..], name, a - 1);
    }
  }

  lemma {:induction false} CodeOfPlace(items: seq<Item>, i: nat, p: nat) returns (k: nat)
    requires i <= |items| && p < CodeBefore(items, i)
    ensures k < i && items[k].Code? && CodeBefore(items, k) == p
    decreases i
  {
    if p == CodeBefore(items, i - 1) {
      k := i - 1;
    } else {
      k := CodeOfPlace(items, i - 1, p);
    }
  }

  lemma {:induction false} EncodesExactly(syms: seq<Sym>, code: seq<Line>)
    ensures EncodeAll(syms, code).Some? <==> forall p | 0 <= p < |code| :: EncodeDirect(syms, code[p]).Some?
    decreases |code|
  {
    if code != [] {
      EncodesExactly(syms, code[..|code| - 1]);
    }
  }

  /** Assembling directly succeeds exactly when the source fits behind the guard, labels nothing twice, and
      labels everything its instructions name. */
  lemma AssemblesExactly(items: seq<Item>)
    ensures Assembled(items).Some? <==>
      Fitting(items, |items|, 4) && !LabelledTwice(items, |items|) && OperandsLabelled(items)
  {
    assert items[..|items|] == items;
    PassAccepts(items, |items|, NULL_GUARD);
    if CollectAll(Start(NULL_GUARD), items).Some? {
      PassReaches(items, |items|, NULL_GUARD);
      var u := CollectAll(Start(NULL_GUARD), items).value;
      EncodesExactly(u.syms, u.code);
      OperandsResolve(items, u);
    }
  }

  lemma OperandsResolve(items: seq<Item>, u: Tables)
    requires Reached(items, |items|, NULL_GUARD, u)
    ensures (forall p | 0 <= p < |u.code| :: EncodeDirect(u.syms, u.code[p]).Some?) <==> OperandsLabelled(items)
  {
    forall k | 0 <= k < |items| && items[k].Code?
      ensures CodeBefore(items, k) < |u.code| && u.code[CodeBefore(items, k)] == items[k].line
      ensures items[k].line.operand.Some? ==>
        (Labelled(items, items[k].line.operand.value.sym) <==> EncodeDirect(u.syms, items[k].line).Some?)
    {
      assert CodeKept(items, k, u.code);
      if items[k].line.operand.Some? {
        FindExactly(items, NULL_GUARD, u, items[k].line.operand.value.sym);
      }
    }
    if OperandsLabelled(items) {
      forall p | 0 <= p < |u.code|
        ensures EncodeDirect(u.syms, u.code[p]).Some?
      {
        var k := CodeOfPlace(items, |items|, p);
      }
    }
  }

  /** An instruction with `value` for its name: in its target if it branches, in its immediate otherwise. */
  function Naming(ins: Instr, value: int): Instr {
    if ins.op in {BEQ, BNE, BLT, J, JAL, SETHANDLER} then ins.(target := Wrap32(value)) else ins.(imm := value)
  }

  lemma CodeResolves(items: seq<Item>, base: nat, u: Tables, k: nat, m: nat)
    requires Reached(items, |items|, base, u) && !LabelledTwice(items, |items|) && k < |items| && items[k].Code?
    ensures CodeKept(items, k, u.code)
    ensures items[k].line.operand.None? ==> EncodeDirect(u.syms, items[k].line) == Some(items[k].line.ins)
    ensures items[k].line.operand.Some? && LabelledAt(items, m, items[k].line.operand.value.sym) ==>
      EncodeDirect(u.syms, items[k].line) ==
        Some(Naming(items[k].line.ins, Stands(items, m, base) + items[k].line.operand.value.addend))
  {
    assert CodeKept(items, k, u.code);
    if items[k].line.operand.Some? && LabelledAt(items, m, items[k].line.operand.value.sym) {
      FindLabel(items, base, u, m);
    }
  }

  lemma AssembledTables(items: seq<Item>) returns (u: Tables)
    requires Assembled(items).Some?
    ensures Reached(items, |items|, 4, u) && !LabelledTwice(items, |items|) && Fitting(items, |items|, 4)
    ensures EncodeAll(u.syms, u.code) == Some(Assembled(items).value.0) && u.mem == Assembled(items).value.1
  {
    assert items[..|items|] == items;
    PassAccepts(items, |items|, NULL_GUARD);
    PassReaches(items, |items|, NULL_GUARD);
    u := CollectAll(Start(NULL_GUARD), items).value;
  }

  /** Each code line is the instruction at its number, with what the label of its operand stands for. */
  lemma ProgramIsTheCode(items: seq<Item>, k: nat, m: nat)
    requires Assembled(items).Some? && k < |items| && items[k].Code?
    ensures |Assembled(items).value.0| == CodeBefore(items, |items|)
    ensures CodeBefore(items, k) < |Assembled(items).value.0|
    ensures var (l, ins) := (items[k].line, Assembled(items).value.0[CodeBefore(items, k)]);
      && (l.operand.None? ==> ins == l.ins)
      && (l.operand.Some? && LabelledAt(items, m, l.operand.value.sym) ==>
            ins == Naming(l.ins, Stands(items, m, 4) + l.operand.value.addend))
  {
    var u := AssembledTables(items);
    CodeResolves(items, 4, u, k, m);
    EncodedInPlace(u.syms, u.code, Assembled(items).value.0, CodeBefore(items, k));
  }

  lemma EncodedInPlace(syms: seq<Sym>, code: seq<Assembly.Line>, text: seq<Instr>, p: nat)
    requires EncodeAll(syms, code) == Some(text)
    ensures |text| == |code| && (p < |code| ==> EncodeDirect(syms, code[p]) == Some(text[p]))
  {
  }

  lemma {:induction false} SameCount(items: seq<Item>, m: nat, c: nat)
    requires m <= c <= |items| && forall k | m <= k < c :: !items[k].Code?
    ensures CodeBefore(items, c) == CodeBefore(items, m)
    decreases c
  {
    if m < c {
      SameCount(items, m, c - 1);
    }
  }

  /** A branch to a label goes to the next code line after the label. */
  lemma BranchesReachTheNextLine(items: seq<Item>, k: nat, m: nat, c: nat)
    requires Assembled(items).Some? && k < |items| && items[k].Code? && m < c < |items| && items[c].Code?
    requires items[k].line.ins.op in {BEQ, BNE, BLT, J, JAL, SETHANDLER}
    requires items[k].line.operand.Some? && items[k].line.operand.value.addend == 0
    requires LabelledAt(items, m, items[k].line.operand.value.sym) && !InData(items, m)
    requires forall i | m <= i < c :: !items[i].Code?
    ensures CodeBefore(items, k) < |Assembled(items).value.0|
    ensures Assembled(items).value.0[CodeBefore(items, k)].target == CodeBefore(items, c)
  {
    ProgramIsTheCode(items, k, m);
    ProgramIsTheCode(items, c, m);
    SameCount(items, m, c);
    var u := AssembledTables(items);
  }

  /** `loop: j loop` goes to itself. */
  lemma LoopsToItself(name: string, j: Instr)
    requires j.op == J
    ensures var items := [Label(name), Code(Line(j, Some(Operand(name, 0))))];
      Assembled(items).Some? && Assembled(items).value.0 == [j.(target := 0)]
  {
    var items := [Label(name), Code(Line(j, Some(Operand(name, 0))))];
    assert LabelledAt(items, 0, name);
    assert CodeBefore(items, 1) == 0 && CodeBefore(items, 2) == 1;
    assert BytesBefore(items, 1) == 0 && BytesBefore(items, 2) == 0;
    assert LabelsBefore(items, 1) == 1 && LabelsBefore(items, 2) == 1;
    AssemblesExactly(items);
    ProgramIsTheCode(items, 1, 0);
  }

  /** The data are where counting puts them, behind the guard, and there is nothing else. */
  lemma MemoryIsTheData(items: seq<Item>)
    requires Assembled(items).Some?
    ensures MemoryKept(items, |items|, 4, Assembled(items).value.1)
  {
    assert items[..|items|] == items;
    PassReaches(items, |items|, NULL_GUARD);
  }

  /** A label before words stands for the address of the first of them. */
  lemma LabelsHoldTheirWords(items: seq<Item>, m: nat, j: nat)
    requires Assembled(items).Some? && m + 1 < |items| && items[m].Label? && InData(items, m)
    requires items[m + 1].Words? && j < |items[m + 1].values|
    ensures HoldsWord(Assembled(items).value.1, Stands(items, m, 4) + 4 * j, items[m + 1].values[j])
  {
    MemoryIsTheData(items);
    assert BytesBefore(items, m + 1) == BytesBefore(items, m);
    assert DataKept(items, m + 1, 4, Assembled(items).value.1);
  }

  // --- the object -------------------------------------------------------------------------------------------------

  /** The names the object exports: those of the `.global` lines, the first 512 of them. */
  function Exports(items: seq<Item>): seq<string> {
    var names := GlobalsBefore(items, |items|);
    if |names| <= 512 then names else names[..512]
  }

  /** Assembling to an object succeeds exactly when the source fits without a guard, labels nothing twice,
      and labels what it exports. */
  lemma ObjectExactly(items: seq<Item>)
    ensures AssembledObject(items).Some? <==>
      && Fitting(items, |items|, 0) && !LabelledTwice(items, |items|)
      && forall n | n in Exports(items) :: Labelled(items, n)
  {
    assert items[..|items|] == items;
    PassAccepts(items, |items|, 0);
    if CollectAll(Start(0), items).Some? {
      PassReaches(items, |items|, 0);
      var u := CollectAll(Start(0), items).value;
      forall n
        ensures Known(u.syms, n) <==> Labelled(items, n)
      {
        KnownExactly(items, |items|, 0, u, n);
        assert Labelled(items, n) <==> exists k :: k < |items| && LabelledAt(items, k, n);
      }
    }
  }

  lemma ObjectTables(items: seq<Item>) returns (u: Tables)
    requires AssembledObject(items).Some?
    ensures Reached(items, |items|, 0, u) && !LabelledTwice(items, |items|) && MemoryKept(items, |items|, 0, u.mem)
    ensures AssembledObject(items).value == ObjectOf(u)
  {
    assert items[..|items|] == items;
    PassAccepts(items, |items|, 0);
    PassReaches(items, |items|, 0);
    u := CollectAll(Start(0), items).value;
  }

  /** The symbol of each label: its section, its distance from the section's beginning, and whether it is
      exported. */
  lemma SymbolsAreTheLabels(items: seq<Item>, m: nat)
    requires AssembledObject(items).Some? && m < |items| && items[m].Label?
    ensures |AssembledObject(items).value.syms| == LabelsBefore(items, |items|)
    ensures LabelsBefore(items, m) < |AssembledObject(items).value.syms|
    ensures var d := AssembledObject(items).value.syms[LabelsBefore(items, m)];
      && d.name == items[m].name && d.offset == Stands(items, m, 0)
      && d.section == (if InData(items, m) then Data else Text) && d.isCode == (if InData(items, m) then 0 else 1)
      && d.binding == (if items[m].name in Exports(items) then Global else Local)
  {
    var u := ObjectTables(items);
    assert LabelKept(items, m, 0, u.syms);
  }

  /** The text of the object is the code lines, with 0 for every name, and its data are where counting puts
      them. */
  lemma TextIsTheCode(items: seq<Item>, k: nat)
    requires AssembledObject(items).Some? && k < |items| && items[k].Code?
    ensures |AssembledObject(items).value.text| == CodeBefore(items, |items|)
    ensures CodeBefore(items, k) < |AssembledObject(items).value.text|
    ensures var (l, ins) := (items[k].line, AssembledObject(items).value.text[CodeBefore(items, k)]);
      ins == if l.operand.None? then l.ins else Naming(l.ins, 0)
  {
    var u := ObjectTables(items);
    assert CodeKept(items, k, u.code);
  }

  function RelocFor(items: seq<Item>, k: nat): Reloc
    requires k < |items| && items[k].Code? && items[k].line.operand.Some?
  {
    var (op, o) := (items[k].line.ins.op, items[k].line.operand.value);
    var kind := if op in {BEQ, BNE, BLT, J, JAL, SETHANDLER} then RCode else if op == LI then RAddr else RData;
    Reloc(kind, CodeBefore(items, k), o.sym, o.addend)
  }

  predicate Names(items: seq<Item>, k: int, r: Reloc) {
    0 <= k < |items| && items[k].Code? && items[k].line.operand.Some? && RelocFor(items, k) == r
  }

  /** Each name an instruction uses is one relocation of that instruction, and there are no others. */
  lemma RelocationsAreTheNames(items: seq<Item>, r: Reloc)
    requires AssembledObject(items).Some?
    ensures r in AssembledObject(items).value.relocs <==> exists k :: Names(items, k, r)
  {
    var u := ObjectTables(items);
    RelocsAreOperands(u.code, |u.code|, r);
    if r in RelocsOf(u.code, |u.code|) {
      var p :| 0 <= p < |u.code| && OperandReloc(u.code, p, r);
      var k := CodeOfPlace(items, |items|, p);
      assert CodeKept(items, k, u.code);
      assert Names(items, k, r);
    }
    if k :| Names(items, k, r) {
      assert CodeKept(items, k, u.code);
      assert OperandReloc(u.code, CodeBefore(items, k), r);
    }
  }

  predicate OperandReloc(code: seq<Line>, p: int, r: Reloc) {
    && 0 <= p < |code| && code[p].operand.Some?
    && r == Reloc(KindFor(code[p].ins.op), p, code[p].operand.value.sym, code[p].operand.value.addend)
  }

  lemma {:induction false} RelocsAreOperands(code: seq<Line>, n: nat, r: Reloc)
    requires n <= |code|
    ensures r in RelocsOf(code, n) <==> exists p :: 0 <= p < n && OperandReloc(code, p, r)
    decreases n
  {
    if n > 0 {
      RelocsAreOperands(code, n - 1, r);
      assert r in RelocsOf(code, n) <==> r in RelocsOf(code, n - 1) || OperandReloc(code, n - 1, r);
    }
  }

  /** The data of the object end with the last byte asked for. */
  lemma DataAreTheBytes(items: seq<Item>)
    requires AssembledObject(items).Some?
    ensures |AssembledObject(items).value.data| == BytesBefore(items, |items|) <= MEM_SIZE
    ensures var data := AssembledObject(items).value.data;
      MemoryKept(items, |items|, 0, data + Blank(MEM_SIZE - |data|))
  {
    var u := ObjectTables(items);
    var (n, data) := (BytesBefore(items, |items|), AssembledObject(items).value.data);
    assert data == u.mem[..n];
    forall a | n <= a < MEM_SIZE
      ensures u.mem[a] == 0
    {
      forall k | 0 <= k < |items|
        ensures !WordsAt(items, k, 0, a)
      {
        CountsGrow(items, k + 1, |items|);
      }
      assert Untouched(items, |items|, 0, a);
    }
    assert data + Blank(MEM_SIZE - n) == u.mem;
  }
}
