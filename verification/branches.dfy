/** What conditionals mean, said of their nesting: a block keeps one of its sides, and nothing of a block in a
    side that is not kept is kept. */
module ConditionalMeaning {
  import opened Locator
  import opened SourceReader

  /** Lines as they nest: a plain line, or a conditional with its two sides. */
  datatype Block =
    | Plain(p: Phys)
    | Cond(test: Phys, yes: seq<Block>, turn: Option<Phys>, no: seq<Block>, end: Phys)

  /** The lines of a block are of their kinds; without `.else` there is no other side. */
  predicate Formed(b: Block) {
    match b
    case Plain(p) => p.line.Text? || p.line.Include?
    case Cond(test, yes, turn, no, end) =>
      && test.line.IfDef? && end.line.EndIf? && AllFormed(yes) && AllFormed(no)
      && (if turn.Some? then turn.value.line.Else? else no == [])
  }

  predicate AllFormed(bs: seq<Block>) { forall b | b in bs :: Formed(b) }

  function LinesOf(b: Block): seq<Phys> {
    match b
    case Plain(p) => [p]
    case Cond(test, yes, turn, no, end) =>
      [test] + AllLines(yes) + (if turn.Some? then [turn.value] + AllLines(no) else []) + [end]
  }

  function AllLines(bs: seq<Block>): seq<Phys> {
    if bs == [] then [] else LinesOf(bs[0]) + AllLines(bs[1..])
  }

  /** The lines that are meant: of `.ifdef` the first side when the name is given, the other when it is not;
      of `.ifndef` the other way round. */
  function Meant(defines: set<string>, b: Block): seq<Phys>
    requires Formed(b)
  {
    match b
    case Plain(p) => [p]
    case Cond(test, yes, _, no, _) =>
      var given := test.line.name in defines;
      if (if test.line.negated then !given else given) then AllMeant(defines, yes) else AllMeant(defines, no)
  }

  function AllMeant(defines: set<string>, bs: seq<Block>): seq<Phys>
    requires AllFormed(bs)
  {
    if bs == [] then [] else Meant(defines, bs[0]) + AllMeant(defines, bs[1..])
  }

  /** A state of the reader: the lines so far, the conditionals open after them, the lines kept. */
  type Tally = (seq<Phys>, seq<Branch>, seq<Phys>) -> bool

  /** One line more. */
  predicate Counts(defines: set<string>, at: Tally, trace: seq<Phys>, open: seq<Branch>, kept: seq<Phys>, p: Phys) {
    at(trace, open, kept) ==>
      at(trace + [p], NextBranches(defines, open, p.line, p.depth),
        kept + if (p.line.Text? || p.line.Include?) && AllHold(open) then [p] else [])
  }

  ghost predicate Counting(defines: set<string>, at: Tally) {
    forall trace, open, kept, p :: Counts(defines, at, trace, open, kept, p)
  }

  lemma HoldsOfMore(open: seq<Branch>, b: Branch)
    ensures AllHold(open + [b]) == (AllHold(open) && Holds(b))
  {
    assert (open + [b])[|open|] == b;
    assert forall j | 0 <= j < |open| :: (open + [b])[j] == open[j];
  }

  /** What a side adds, by what holds around it. */
  function Side(open: seq<Branch>, meant: seq<Phys>): seq<Phys> { if AllHold(open) then meant else [] }

  predicate Hit(defines: set<string>, test: Phys)
    requires test.line.IfDef?
  {
    (test.line.name in defines) != test.line.negated
  }

  function Opened(defines: set<string>, test: Phys, inElse: bool): Branch
    requires test.line.IfDef?
  {
    Branch(Hit(defines, test), inElse, test.depth)
  }

  /** After some lines the reader keeps of a nest of blocks what is meant, if the conditionals already open
      hold, and nothing if they do not; and the same are open after it. */
  lemma {:induction false} BlocksMean(
      defines: set<string>, at: Tally, before: seq<Phys>, open: seq<Branch>, kept: seq<Phys>, bs: seq<Block>)
    requires Counting(defines, at) && AllFormed(bs) && at(before, open, kept)
    ensures at(before + AllLines(bs), open, kept + Side(open, AllMeant(defines, bs)))
    decreases bs
  {
    if bs == [] {
      assert before + AllLines(bs) == before && kept + Side(open, AllMeant(defines, bs)) == kept;
    } else {
      var (a, x) := (LinesOf(bs[0]), Side(open, Meant(defines, bs[0])));
      BlockMeans(defines, at, before, open, kept, bs[0]);
      BlocksMean(defines, at, before + a, open, kept + x, bs[1..]);
      assert before + AllLines(bs) == before + a + AllLines(bs[1..]);
      assert kept + Side(open, AllMeant(defines, bs)) == kept + x + Side(open, AllMeant(defines, bs[1..]));
    }
  }

  lemma {:induction false} BlockMeans(
      defines: set<string>, at: Tally, before: seq<Phys>, open: seq<Branch>, kept: seq<Phys>, b: Block)
    requires Counting(defines, at) && Formed(b) && at(before, open, kept)
    ensures at(before + LinesOf(b), open, kept + Side(open, Meant(defines, b)))
    decreases b
  {
    match b
    case Plain(p) => assert Counts(defines, at, before, open, kept, p);
    case Cond(test, yes, turn, no, end) =>
      var inside := open + [Opened(defines, test, false)];
      assert Counts(defines, at, before, open, kept, test);
      assert kept + [] == kept;
      BlocksMean(defines, at, before + [test], inside, kept, yes);
      var (a, first) := (before + [test] + AllLines(yes), kept + Side(inside, AllMeant(defines, yes)));
      HoldsOfMore(open, Opened(defines, test, false));
      if turn.Some? {
        var other := open + [Opened(defines, test, true)];
        TurnsOver(defines, at, a, open, first, test, turn.value);
        BlocksMean(defines, at, a + [turn.value], other, first, no);
        HoldsOfMore(open, Opened(defines, test, true));
        var c := a + [turn.value] + AllLines(no);
        Ends(defines, at, c, open, Opened(defines, test, true), first + Side(other, AllMeant(defines, no)), end);
        assert before + LinesOf(b) == c + [end];
        assert first + Side(other, AllMeant(defines, no)) == kept + Side(open, Meant(defines, b));
      } else {
        Ends(defines, at, a, open, Opened(defines, test, false), first, end);
        assert before + LinesOf(b) == a + [end];
        assert first == kept + Side(open, Meant(defines, b));
      }
  }

  lemma TurnsOver(
      defines: set<string>, at: Tally, trace: seq<Phys>, open: seq<Branch>, kept: seq<Phys>, test: Phys, turn: Phys)
    requires Counting(defines, at) && test.line.IfDef? && turn.line.Else?
    requires at(trace, open + [Opened(defines, test, false)], kept)
    ensures at(trace + [turn], open + [Opened(defines, test, true)], kept)
  {
    var was := open + [Opened(defines, test, false)];
    assert Counts(defines, at, trace, was, kept, turn);
    assert kept + [] == kept;
    assert NextBranches(defines, was, turn.line, turn.depth) == open + [Opened(defines, test, true)];
  }

  lemma Ends(
      defines: set<string>, at: Tally, trace: seq<Phys>, open: seq<Branch>, b: Branch, kept: seq<Phys>, end: Phys)
    requires Counting(defines, at) && end.line.EndIf? && at(trace, open + [b], kept)
    ensures at(trace + [end], open, kept)
  {
    assert Counts(defines, at, trace, open + [b], kept, end);
    assert kept + [] == kept && (open + [b])[..|open|] == open;
  }

  /** The reader's own. */
  function TallyOf(defines: set<string>): Tally {
    (trace: seq<Phys>, open: seq<Branch>, kept: seq<Phys>) =>
      Branches(defines, trace) == open && Kept(defines, trace) == kept
  }

  lemma TallyCounts(defines: set<string>)
    ensures Counting(defines, TallyOf(defines))
  {
    forall trace, open, kept, p
      ensures Counts(defines, TallyOf(defines), trace, open, kept, p)
    {
      OneMoreLine(defines, trace, p);
    }
  }

  /** A unit whose lines nest into blocks delivers what the blocks mean. */
  lemma UnitsMean(e: Source, top: string, bs: seq<Block>)
    requires top in e.files && AllFormed(bs) && WholeUnit(ReadingOf(e), top).Through?
    requires WholeUnit(ReadingOf(e), top).trace == AllLines(bs)
    ensures Delivered(e, top) == Lines(AllMeant(e.defines, bs))
  {
    TallyCounts(e.defines);
    BlocksMean(e.defines, TallyOf(e.defines), [], [], [], bs);
    assert [] + AllLines(bs) == AllLines(bs) && [] + AllMeant(e.defines, bs) == AllMeant(e.defines, bs);
  }

  /** Which lines can stand where: an `.else` once in a conditional and an `.endif` only in one, no more than
      sixteen conditionals in one another, anything that is no directive everywhere. */
  lemma LegalExactly(open: seq<Branch>, name: string, negated: bool, text: string)
    ensures Legal(open, Text(text)) && Legal(open, Include(name)) && !Legal(open, Malformed)
    ensures Legal(open, IfDef(name, negated)) <==> |open| <= 15
    ensures Legal(open, EndIf) <==> |open| > 0
    ensures |open| == 0 ==> !Legal(open, Else)
  {
  }

  lemma ElseOnce(defines: set<string>, trace: seq<Phys>, test: Phys, lines: seq<Phys>, turn: Phys)
    requires test.line.IfDef? && turn.line.Else?
    requires Branches(defines, trace + [test] + lines) == Branches(defines, trace + [test])
    ensures Legal(Branches(defines, trace + [test] + lines), Else)
    ensures !Legal(Branches(defines, trace + [test] + lines + [turn]), Else)
  {
    OneMoreLine(defines, trace, test);
    OneMoreLine(defines, trace + [test] + lines, turn);
  }
}
