/** The reader of an assembly unit: a stack of open files, each file entered once, and a stack of
    conditionals that decides which lines reach the assembler. */
module SourceReader {
  import opened Locator

  const MAX_INCLUDE := 8
  const MAX_INC_SEEN := 64
  const MAX_COND := 16

  /** A line as the reader distinguishes it. `Malformed` is a conditional with a label on its line or
      the wrong number of arguments. */
  datatype SourceLine =
    | Text(text: string) | Include(name: string) | IfDef(name: string, negated: bool) | Else | EndIf | Malformed

  /** A physical line with its place, a file by its canonical path, and how many files were open when it
      was read. */
  datatype Phys = Phys(file: string, index: nat, line: SourceLine, depth: nat)

  // --- what conditionals mean -----------------------------------------------------------------------

  /** An open conditional: whether its test held, which side we are on, and how deep the file is that
      opened it. */
  datatype Branch = Branch(hit: bool, inElse: bool, depth: nat)

  predicate Holds(b: Branch) { b.hit != b.inElse }

  /** The first `n` conditionals hold: the ones around the n-th. */
  predicate Around(bs: seq<Branch>, n: nat)
    requires n <= |bs|
  {
    forall j | 0 <= j < n :: Holds(bs[j])
  }

  predicate AllHold(bs: seq<Branch>) { Around(bs, |bs|) }

  /** A line the reader can go on after. */
  predicate Legal(bs: seq<Branch>, line: SourceLine) {
    match line
    case IfDef(_, _) => |bs| < MAX_COND
    case Else => bs != [] && !bs[|bs| - 1].inElse
    case EndIf => bs != []
    case Malformed => false
    case _ => true
  }

  function NextBranches(defines: set<string>, bs: seq<Branch>, line: SourceLine, depth: nat): seq<Branch> {
    match line
    case IfDef(n, negated) => bs + [Branch((n in defines) != negated, false, depth)]
    case Else => if bs == [] then bs else bs[|bs| - 1 := bs[|bs| - 1].(inElse := true)]
    case EndIf => if bs == [] then bs else bs[..|bs| - 1]
    case _ => bs
  }

  /** The conditionals open after a list of physical lines. */
  function Branches(defines: set<string>, trace: seq<Phys>): seq<Branch>
    decreases |trace|
  {
    if trace == [] then []
    else
      var p := trace[|trace| - 1];
      NextBranches(defines, Branches(defines, trace[..|trace| - 1]), p.line, p.depth)
  }

  /** The lines of a list that reach the assembler: those that are no directive and have every
      conditional around them holding. */
  function Kept(defines: set<string>, trace: seq<Phys>): seq<Phys>
    decreases |trace|
  {
    if trace == [] then []
    else
      var (front, p) := (trace[..|trace| - 1], trace[|trace| - 1]);
      Kept(defines, front) +
      if (p.line.Text? || p.line.Include?) && AllHold(Branches(defines, front)) then [p] else []
  }

  lemma OneMoreLine(defines: set<string>, trace: seq<Phys>, p: Phys)
    ensures Branches(defines, trace + [p]) == NextBranches(defines, Branches(defines, trace), p.line, p.depth)
    ensures Kept(defines, trace + [p]) == Kept(defines, trace) +
      if (p.line.Text? || p.line.Include?) && AllHold(Branches(defines, trace)) then [p] else []
  {
    assert (trace + [p])[..|trace|] == trace;
  }

  // --- the reader's own record of them -----------------------------------------------------------------

  /** `live` is what the enclosing level said, `emit` whether lines at this level survive. */
  datatype CondLevel = CondLevel(emit: bool, live: bool, seenElse: bool, incSp: nat)

  predicate CondLive(cond: seq<CondLevel>) { cond == [] || cond[|cond| - 1].emit }

  /** The invariant: every level knows whether all the levels around it hold. */
  predicate Mirrors(cond: seq<CondLevel>, bs: seq<Branch>) {
    |cond| == |bs| && forall i | 0 <= i < |cond| :: Knows(cond[i], bs, i)
  }

  predicate Knows(c: CondLevel, bs: seq<Branch>, i: nat)
    requires i < |bs|
  {
    && c.live == Around(bs, i) && c.seenElse == bs[i].inElse && c.incSp == bs[i].depth
    && c.emit == (c.live && Holds(bs[i]))
  }

  lemma LiveMeansAllHold(cond: seq<CondLevel>, bs: seq<Branch>)
    requires Mirrors(cond, bs)
    ensures CondLive(cond) == AllHold(bs)
  {
    if cond != [] {
      var last := |bs| - 1;
      assert Knows(cond[last], bs, last);
      assert Around(bs, last + 1) == (Around(bs, last) && Holds(bs[last]));
    }
  }

  lemma LevelIsOpen(cond: seq<CondLevel>, bs: seq<Branch>, depth: nat)
    requires Mirrors(cond, bs)
    ensures OpenHere(bs, depth) <==> cond != [] && cond[|cond| - 1].incSp == depth
  {
    if cond != [] {
      assert Knows(cond[|bs| - 1], bs, |bs| - 1);
    }
  }

  /** What the reader does to its levels on a conditional. `.else` flips inside a live outer level only. */
  function NextCond(defines: set<string>, cond: seq<CondLevel>, line: SourceLine, sp: nat): seq<CondLevel> {
    match line
    case IfDef(n, negated) =>
      var live := CondLive(cond);
      cond + [CondLevel(live && (n in defines) != negated, live, false, sp)]
    case Else =>
      if cond == [] then cond
      else
        var c := cond[|cond| - 1];
        cond[|cond| - 1 := c.(seenElse := true, emit := c.live && !c.emit)]
    case EndIf => if cond == [] then cond else cond[..|cond| - 1]
    case _ => cond
  }

  /** On every conditional the record keeps mirroring the meaning: no `.else` revives a dead outer block. */
  lemma MirrorStep(defines: set<string>, cond: seq<CondLevel>, bs: seq<Branch>, line: SourceLine, sp: nat)
    requires Mirrors(cond, bs) && Legal(bs, line)
    ensures Mirrors(NextCond(defines, cond, line, sp), NextBranches(defines, bs, line, sp))
  {
    LiveMeansAllHold(cond, bs);
    var (c, b) := (NextCond(defines, cond, line, sp), NextBranches(defines, bs, line, sp));
    forall i | 0 <= i < |c|
      ensures Knows(c[i], b, i)
    {
      assert forall j | 0 <= j < i :: b[j] == bs[j];
      assert Around(b, i) == Around(bs, i);
      assert i < |cond| ==> Knows(cond[i], bs, i);
    }
  }

  // --- the state ------------------------------------------------------------------------------------------

  datatype Open = Open(file: string, next: nat)

  /** How far each file that has been entered has been read. */
  type Progress = map<string, nat>

  predicate Was(trace: seq<Phys>, f: string, l: nat) {
    exists i :: 0 <= i < |trace| && trace[i].file == f && trace[i].index == l
  }

  /** A physical line is the line its place says, and one already passed. */
  predicate Passed(files: map<string, seq<SourceLine>>, got: Progress, p: Phys) {
    && p.file in got && p.file in files && p.index < got[p.file] && p.index < |files[p.file]|
    && p.line == files[p.file][p.index]
  }

  /** What has been read: the lines of the entered files, in their order, each once, up to where each
      file has been reached. */
  ghost predicate Traced(files: map<string, seq<SourceLine>>, got: Progress, trace: seq<Phys>) {
    && (forall i | 0 <= i < |trace| :: Passed(files, got, trace[i]))
    && (forall i, j | 0 <= i < j < |trace| && trace[i].file == trace[j].file :: trace[i].index < trace[j].index)
    && (forall f, l: nat | f in got && l < got[f] :: Was(trace, f, l))
  }

  predicate OnStack(stk: seq<Open>, f: string) { exists i :: 0 <= i < |stk| && stk[i].file == f }

  /** The open files are different ones, each where it has been reached; the others are finished. */
  predicate Opened(files: map<string, seq<SourceLine>>, got: Progress, stk: seq<Open>) {
    && 0 < |stk| <= MAX_INCLUDE
    && (forall i | 0 <= i < |stk| :: stk[i].file in got && stk[i].file in files && got[stk[i].file] == stk[i].next)
    && (forall i, j | 0 <= i < j < |stk| :: stk[i].file != stk[j].file)
    && (forall f | f in got :: f in files && got[f] <= |files[f]|)
    && (forall f | f in got && got[f] < |files[f]| :: OnStack(stk, f))
  }

  predicate Depths(cond: seq<CondLevel>, sp: nat) {
    && (forall i | 0 <= i < |cond| :: 1 <= cond[i].incSp <= sp)
    && forall i, j | 0 <= i < j < |cond| :: cond[i].incSp <= cond[j].incSp
  }

  function Top(stk: seq<Open>): Open
    requires stk != []
  {
    stk[|stk| - 1]
  }

  function Under(stk: seq<Open>): seq<Open>
    requires stk != []
  {
    stk[..|stk| - 1]
  }

  function Advanced(stk: seq<Open>): seq<Open>
    requires stk != []
  {
    stk[|stk| - 1 := Open(Top(stk).file, Top(stk).next + 1)]
  }

  /** Reading the next line of the innermost file. */
  lemma ReadKeepsTrace(files: map<string, seq<SourceLine>>, got: Progress, trace: seq<Phys>, f: string, depth: nat)
    requires Traced(files, got, trace) && f in got && f in files && got[f] < |files[f]|
    ensures Traced(files, got[f := got[f] + 1], trace + [Phys(f, got[f], files[f][got[f]], depth)])
  {
    var l := got[f];
    var trace' := trace + [Phys(f, l, files[f][l], depth)];
    forall g, k: nat | g in got[f := l + 1] && k < got[f := l + 1][g]
      ensures Was(trace', g, k)
    {
      if g == f && k == l {
        assert trace'[|trace|].file == g;
      } else {
        assert Was(trace, g, k);
        var i :| 0 <= i < |trace| && trace[i].file == g && trace[i].index == k;
        assert trace'[i] == trace[i];
      }
    }
  }

  lemma ReadKeepsStack(files: map<string, seq<SourceLine>>, got: Progress, stk: seq<Open>)
    requires Opened(files, got, stk) && Top(stk).next < |files[Top(stk).file]|
    ensures Opened(files, got[Top(stk).file := Top(stk).next + 1], Advanced(stk))
  {
    var got' := got[Top(stk).file := Top(stk).next + 1];
    forall f | f in got' && got'[f] < |files[f]|
      ensures OnStack(Advanced(stk), f)
    {
      assert OnStack(stk, f);
      var i :| 0 <= i < |stk| && stk[i].file == f;
      assert Advanced(stk)[i].file == f;
    }
  }

  /** Closing the innermost file at its end. */
  lemma CloseKeepsStack(files: map<string, seq<SourceLine>>, got: Progress, stk: seq<Open>)
    requires Opened(files, got, stk) && Top(stk).next == |files[Top(stk).file]| && |stk| > 1
    ensures Opened(files, got, Under(stk))
  {
    forall f | f in got && got[f] < |files[f]|
      ensures OnStack(Under(stk), f)
    {
      assert OnStack(stk, f);
      var i :| 0 <= i < |stk| && stk[i].file == f;
      assert Under(stk)[i].file == f;
    }
  }

  /** Entering a file not entered before. */
  lemma PushKeeps(files: map<string, seq<SourceLine>>, got: Progress, stk: seq<Open>, trace: seq<Phys>, g: string)
    requires Opened(files, got, stk) && Traced(files, got, trace)
    requires g in files && g !in got && |stk| < MAX_INCLUDE
    ensures Opened(files, got[g := 0], stk + [Open(g, 0)]) && Traced(files, got[g := 0], trace)
  {
    var (got', stk') := (got[g := 0], stk + [Open(g, 0)]);
    forall f | f in got' && got'[f] < |files[f]|
      ensures OnStack(stk', f)
    {
      if f == g {
        assert stk'[|stk|].file == g;
      } else {
        assert OnStack(stk, f);
        var i :| 0 <= i < |stk| && stk[i].file == f;
        assert stk'[i].file == f;
      }
    }
    forall i | 0 <= i < |trace|
      ensures Passed(files, got', trace[i])
    {
      assert Passed(files, got, trace[i]);
    }
  }

  lemma DepthsStep(defines: set<string>, cond: seq<CondLevel>, line: SourceLine, sp: nat)
    requires Depths(cond, sp) && sp > 0
    ensures Depths(NextCond(defines, cond, line, sp), sp)
  {
  }

  /** A line survives by the record exactly when it survives by the meaning. */
  lemma KeptByRecord(defines: set<string>, cond: seq<CondLevel>, trace: seq<Phys>, p: Phys)
    requires Mirrors(cond, Branches(defines, trace))
    ensures Kept(defines, trace + [p]) ==
      Kept(defines, trace) + if (p.line.Text? || p.line.Include?) && CondLive(cond) then [p] else []
  {
    OneMoreLine(defines, trace, p);
    LiveMeansAllHold(cond, Branches(defines, trace));
  }

  /** On every conditional line the record follows the meaning. */
  lemma RecordStep(defines: set<string>, cond: seq<CondLevel>, trace: seq<Phys>, p: Phys, sp: nat)
    requires Mirrors(cond, Branches(defines, trace)) && Legal(Branches(defines, trace), p.line) && p.depth == sp
    ensures Mirrors(NextCond(defines, cond, p.line, sp), Branches(defines, trace + [p]))
  {
    OneMoreLine(defines, trace, p);
    MirrorStep(defines, cond, Branches(defines, trace), p.line, sp);
  }

  // --- the unit as it is meant ----------------------------------------------------------------------------

  /** What a unit is read from: files by canonical path, the path a name leads to, the names given with -D. */
  datatype Source = Source(files: map<string, seq<SourceLine>>, find: string -> Option<string>, defines: set<string>)

  /** The same, with what a walk asks of the lines before it: whether a line can stand there, whether every
      open conditional holds, whether one opened at a depth is still open. */
  datatype Reading = Reading(
    files: map<string, seq<SourceLine>>, find: string -> Option<string>,
    legal: (seq<Phys>, SourceLine) -> bool, live: seq<Phys> -> bool, unfinished: (seq<Phys>, nat) -> bool)

  function ReadingOf(e: Source): Reading {
    Reading(e.files, e.find, (trace: seq<Phys>, line: SourceLine) => Legal(Branches(e.defines, trace), line),
      (trace: seq<Phys>) => AllHold(Branches(e.defines, trace)),
      (trace: seq<Phys>, depth: nat) => OpenHere(Branches(e.defines, trace), depth))
  }

  /** The file a name leads to, if there is one. */
  function Target(w: Reading, name: string): (g: Option<string>)
    ensures g.Some? ==> g.value in w.files
  {
    var g := w.find(name);
    if g.Some? && g.value in w.files then g else None
  }

  /** What can stop a unit. */
  datatype Stop =
    | Illegal(p: Phys)          // a conditional that cannot stand there
    | Unterminated(file: string, depth: nat)
    | NotFound(p: Phys) | TooDeep(p: Phys) | TooMany(p: Phys)

  datatype Outcome =
    | Through(seen: set<string>, trace: seq<Phys>)
    | Stopped(seen: set<string>, trace: seq<Phys>, why: Stop)   // what had been entered and read by then

  /** The innermost conditional was opened by the file that is now at its end. */
  predicate OpenHere(bs: seq<Branch>, depth: nat) { bs != [] && bs[|bs| - 1].depth == depth }

  /** File `f` from line `l` on, at nesting `depth`, with everything it includes. */
  ghost function Walk(w: Reading, f: string, l: nat, depth: nat, seen: set<string>, trace: seq<Phys>): (r: Outcome)
    requires f in w.files && l <= |w.files[f]| && |seen| <= MAX_INC_SEEN
    ensures r.Through? ==> |seen| <= |r.seen| <= MAX_INC_SEEN
    decreases MAX_INC_SEEN - |seen|, |w.files[f]| - l, 1
  {
    if l < |w.files[f]| then WalkLine(w, Phys(f, l, w.files[f][l], depth), seen, trace)
    else if w.unfinished(trace, depth) then Stopped(seen, trace, Unterminated(f, depth))
    else Through(seen, trace)
  }

  /** Line `p` and what follows it: an include that survives and leads to a file not entered before is
      followed by the whole of that file. */
  ghost function WalkLine(w: Reading, p: Phys, seen: set<string>, trace: seq<Phys>): (r: Outcome)
    requires p.file in w.files && p.index < |w.files[p.file]| && |seen| <= MAX_INC_SEEN
    ensures r.Through? ==> |seen| <= |r.seen| <= MAX_INC_SEEN
    decreases MAX_INC_SEEN - |seen|, |w.files[p.file]| - p.index, 0
  {
    if !w.legal(trace, p.line) then Stopped(seen, trace, Illegal(p))
    else if !(p.line.Include? && w.live(trace)) then Walk(w, p.file, p.index + 1, p.depth, seen, trace + [p])
    else
      var g := Target(w, p.line.name);
      if g.None? then Stopped(seen, trace, NotFound(p))
      else if g.value in seen then Walk(w, p.file, p.index + 1, p.depth, seen, trace + [p])
      else if p.depth >= MAX_INCLUDE then Stopped(seen, trace, TooDeep(p))
      else if |seen| >= MAX_INC_SEEN then Stopped(seen, trace, TooMany(p))
      else
        match Walk(w, g.value, 0, p.depth + 1, seen + {g.value}, trace + [p])
        case Stopped(seen1, trace1, why) => Stopped(seen1, trace1, why)
        case Through(seen1, trace1) => Walk(w, p.file, p.index + 1, p.depth, seen1, trace1)
  }

  /** The whole unit that begins with file `top`. */
  ghost function WholeUnit(w: Reading, top: string): Outcome
    requires top in w.files
  {
    Walk(w, top, 0, 1, {top}, [])
  }

  // --- what a walk is --------------------------------------------------------------------------------------

  lemma {:induction false} WalkExtends(w: Reading, f: string, l: nat, depth: nat, seen: set<string>, trace: seq<Phys>)
    requires f in w.files && l <= |w.files[f]| && |seen| <= MAX_INC_SEEN
    ensures var r := Walk(w, f, l, depth, seen, trace); r.Through? ==> trace <= r.trace && seen <= r.seen
    decreases MAX_INC_SEEN - |seen|, |w.files[f]| - l
  {
    if l < |w.files[f]| {
      var p := Phys(f, l, w.files[f][l], depth);
      if w.legal(trace, p.line) {
        if Enters(w, seen, trace, p) {
          var g := Target(w, p.line.name).value;
          WalkExtends(w, g, 0, depth + 1, seen + {g}, trace + [p]);
          var r1 := Walk(w, g, 0, depth + 1, seen + {g}, trace + [p]);
          if r1.Through? {
            WalkExtends(w, f, l + 1, depth, r1.seen, r1.trace);
          }
        } else {
          WalkExtends(w, f, l + 1, depth, seen, trace + [p]);
        }
      }
    }
  }

  /** An include that survives, leads to a new file, and is within the limits. */
  ghost predicate Enters(w: Reading, seen: set<string>, trace: seq<Phys>, p: Phys) {
    && p.line.Include? && w.live(trace) && Target(w, p.line.name).Some? && Target(w, p.line.name).value !in seen
    && p.depth < MAX_INCLUDE && |seen| < MAX_INC_SEEN
  }

  /** The lines of a trace that were read at a depth. */
  function AtDepth(trace: seq<Phys>, depth: nat): seq<Phys>
    decreases |trace|
  {
    if trace == [] then []
    else AtDepth(trace[..|trace| - 1], depth) + if trace[|trace| - 1].depth == depth then [trace[|trace| - 1]] else []
  }

  lemma {:induction false} AtDepthJoin(a: seq<Phys>, b: seq<Phys>, depth: nat)
    ensures AtDepth(a + b, depth) == AtDepth(a, depth) + AtDepth(b, depth)
    decreases |b|
  {
    if b == [] {
      assert a + b == a;
    } else {
      assert (a + b)[..|a + b| - 1] == a + b[..|b| - 1];
      AtDepthJoin(a, b[..|b| - 1], depth);
    }
  }

  lemma {:induction false} NoneAtDepth(a: seq<Phys>, depth: nat)
    requires Deeper(a, depth + 1)
    ensures AtDepth(a, depth) == []
    decreases |a|
  {
    if a != [] {
      NoneAtDepth(a[..|a| - 1], depth);
    }
  }

  predicate Deeper(a: seq<Phys>, depth: nat) { forall p | p in a :: p.depth >= depth }

  /** The lines of a file from `l` on, as they are read at a depth. */
  function LinesFrom(f: string, lines: seq<SourceLine>, l: nat, depth: nat): seq<Phys>
    requires l <= |lines|
    decreases |lines| - l
  {
    if l == |lines| then [] else [Phys(f, l, lines[l], depth)] + LinesFrom(f, lines, l + 1, depth)
  }

  /** What comes after `trace` in `end` has, at its own depth, exactly these lines; everything else in it
      is deeper. */
  predicate Nested(trace: seq<Phys>, end: seq<Phys>, lines: seq<Phys>, depth: nat) {
    trace <= end && AtDepth(end[|trace|..], depth) == lines && Deeper(end[|trace|..], depth)
  }

  /** At its own depth a walk reads the lines of its file, in order and nothing else; everything it includes
      is deeper. */
  lemma {:induction false} WalkIsNested(w: Reading, f: string, l: nat, depth: nat, seen: set<string>, trace: seq<Phys>)
    requires f in w.files && l <= |w.files[f]| && |seen| <= MAX_INC_SEEN
    requires Walk(w, f, l, depth, seen, trace).Through?
    ensures Nested(trace, Walk(w, f, l, depth, seen, trace).trace, LinesFrom(f, w.files[f], l, depth), depth)
    decreases MAX_INC_SEEN - |seen|, |w.files[f]| - l, 1
  {
    if l < |w.files[f]| {
      LineIsNested(w, Phys(f, l, w.files[f][l], depth), seen, trace);
    }
  }

  lemma {:induction false} LineIsNested(w: Reading, p: Phys, seen: set<string>, trace: seq<Phys>)
    requires p.file in w.files && p.index < |w.files[p.file]| && |seen| <= MAX_INC_SEEN
    requires WalkLine(w, p, seen, trace).Through?
    ensures var lines := LinesFrom(p.file, w.files[p.file], p.index + 1, p.depth);
      Nested(trace, WalkLine(w, p, seen, trace).trace, [p] + lines, p.depth)
    decreases MAX_INC_SEEN - |seen|, |w.files[p.file]| - p.index, 0
  {
    var r := WalkLine(w, p, seen, trace);
    var lines := LinesFrom(p.file, w.files[p.file], p.index + 1, p.depth);
    if Enters(w, seen, trace, p) {
      var g := Target(w, p.line.name).value;
      var r1 := Walk(w, g, 0, p.depth + 1, seen + {g}, trace + [p]);
      WalkIsNested(w, g, 0, p.depth + 1, seen + {g}, trace + [p]);
      WalkIsNested(w, p.file, p.index + 1, p.depth, r1.seen, r1.trace);
      IncludeThenFile(trace, p, r1.trace, LinesFrom(g, w.files[g], 0, p.depth + 1), r.trace, lines, p.depth);
    } else {
      WalkIsNested(w, p.file, p.index + 1, p.depth, seen, trace + [p]);
      LineThenFile(trace, p, trace + [p], r.trace, lines, p.depth);
    }
  }

  lemma IncludeThenFile(
      trace: seq<Phys>, p: Phys, middle: seq<Phys>, inner: seq<Phys>, end: seq<Phys>, lines: seq<Phys>, depth: nat)
    requires p.depth == depth && Nested(trace + [p], middle, inner, depth + 1) && Nested(middle, end, lines, depth)
    ensures Nested(trace, end, [p] + lines, depth)
  {
    NoneAtDepth(middle[|trace| + 1..], depth);
    LineThenFile(trace, p, middle, end, lines, depth);
  }

  lemma LineThenFile(
      trace: seq<Phys>, p: Phys, middle: seq<Phys>, end: seq<Phys>, lines: seq<Phys>, depth: nat)
    requires p.depth == depth && Nested(trace + [p], middle, [], depth) && Nested(middle, end, lines, depth)
    ensures Nested(trace, end, [p] + lines, depth)
  {
    var (block, rest) := (middle[|trace| + 1..], end[|middle|..]);
    assert end[|trace|..] == [p] + block + rest;
    AtDepthJoin([p] + block, rest, depth);
    AtDepthJoin([p], block, depth);
    assert AtDepth([p], depth) == [p] by {
      assert [p][..0] == [];
    }
  }

  /** A surviving include of a new file: its line, then that whole file with what it includes, every line of
      it deeper, then the line after it. */
  lemma FileFollowsItsInclude(w: Reading, f: string, l: nat, depth: nat, seen: set<string>, trace: seq<Phys>)
    requires f in w.files && l < |w.files[f]| && |seen| <= MAX_INC_SEEN
    requires var p := Phys(f, l, w.files[f][l], depth);
      w.legal(trace, p.line) && Enters(w, seen, trace, p)
    requires Walk(w, f, l, depth, seen, trace).Through?
    ensures var (p, g) := (Phys(f, l, w.files[f][l], depth), Target(w, w.files[f][l].name).value);
      var r := Walk(w, f, l, depth, seen, trace);
      exists block, seen1 ::
        && trace + [p] + block <= r.trace && |seen1| <= MAX_INC_SEEN
        && AtDepth(block, depth + 1) == LinesFrom(g, w.files[g], 0, depth + 1) && Deeper(block, depth + 1)
        && r == Walk(w, f, l + 1, depth, seen1, trace + [p] + block)
  {
    var (p, g) := (Phys(f, l, w.files[f][l], depth), Target(w, w.files[f][l].name).value);
    var r1 := Walk(w, g, 0, depth + 1, seen + {g}, trace + [p]);
    WalkIsNested(w, g, 0, depth + 1, seen + {g}, trace + [p]);
    WalkExtends(w, f, l + 1, depth, r1.seen, r1.trace);
    var block := r1.trace[|trace| + 1..];
    assert r1.trace == trace + [p] + block;
  }

  /** Line `i` of a trace is an include that survives and leads to `g`. */
  ghost predicate IncludesAt(w: Reading, trace: seq<Phys>, i: nat, g: string)
    requires i < |trace|
  {
    && trace[i].line.Include? && w.live(trace[..i])
    && Target(w, trace[i].line.name) == Some(g)
  }

  /** The files entered are those surviving includes lead to; and what a walk has read is legal, its
      surviving includes all found. */
  ghost predicate Accounts(w: Reading, r: Outcome, seen: set<string>, from: nat)
    requires r.Through? && from <= |r.trace|
  {
    && (forall g | g in r.seen && g !in seen :: exists i: nat :: from <= i < |r.trace| && IncludesAt(w, r.trace, i, g))
    && (forall i | from <= i < |r.trace| :: w.legal(r.trace[..i], r.trace[i].line))
    && forall i | from <= i < |r.trace| && r.trace[i].line.Include? && w.live(r.trace[..i]) ::
      Target(w, r.trace[i].line.name).Some? && Target(w, r.trace[i].line.name).value in r.seen
  }

  ghost predicate Accounted(w: Reading, r: Outcome, seen: set<string>, trace: seq<Phys>)
    requires r.Through?
  {
    trace <= r.trace && seen <= r.seen && Accounts(w, r, seen, |trace|)
  }

  lemma {:induction false} WalkAccounts(w: Reading, f: string, l: nat, depth: nat, seen: set<string>, trace: seq<Phys>)
    requires f in w.files && l <= |w.files[f]| && |seen| <= MAX_INC_SEEN
    requires Walk(w, f, l, depth, seen, trace).Through?
    ensures Accounted(w, Walk(w, f, l, depth, seen, trace), seen, trace)
    decreases MAX_INC_SEEN - |seen|, |w.files[f]| - l, 1
  {
    if l < |w.files[f]| {
      LineAccounts(w, Phys(f, l, w.files[f][l], depth), seen, trace);
    }
  }

  lemma {:induction false} LineAccounts(w: Reading, p: Phys, seen: set<string>, trace: seq<Phys>)
    requires p.file in w.files && p.index < |w.files[p.file]| && |seen| <= MAX_INC_SEEN
    requires WalkLine(w, p, seen, trace).Through?
    ensures Accounted(w, WalkLine(w, p, seen, trace), seen, trace)
    decreases MAX_INC_SEEN - |seen|, |w.files[p.file]| - p.index, 0
  {
    if Enters(w, seen, trace, p) {
      var g := Target(w, p.line.name).value;
      WalkAccounts(w, g, 0, p.depth + 1, seen + {g}, trace + [p]);
      var r1 := Walk(w, g, 0, p.depth + 1, seen + {g}, trace + [p]);
      WalkAccounts(w, p.file, p.index + 1, p.depth, r1.seen, r1.trace);
      AccountsFile(w, trace, p, r1, WalkLine(w, p, seen, trace), seen, g);
    } else {
      WalkAccounts(w, p.file, p.index + 1, p.depth, seen, trace + [p]);
      AccountsLine(w, trace, p, WalkLine(w, p, seen, trace), seen);
    }
  }

  lemma AccountsLine(w: Reading, trace: seq<Phys>, p: Phys, r: Outcome, seen: set<string>)
    requires r.Through? && Accounted(w, r, seen, trace + [p]) && w.legal(trace, p.line)
    requires p.line.Include? && w.live(trace) ==>
      Target(w, p.line.name).Some? && Target(w, p.line.name).value in seen
    ensures Accounted(w, r, seen, trace)
  {
    AccountsJoin(w, trace, p, Through(seen, trace + [p]), seen, r, seen);
  }

  lemma AccountsFile(
      w: Reading, trace: seq<Phys>, p: Phys, r1: Outcome, r: Outcome, seen: set<string>, g: string)
    requires r.Through? && r1.Through?
    requires Accounted(w, r1, seen + {g}, trace + [p]) && Accounted(w, r, r1.seen, r1.trace)
    requires w.legal(trace, p.line) && p.line.Include? && w.live(trace) && Target(w, p.line.name) == Some(g)
    ensures Accounted(w, r, seen, trace)
  {
    AccountsJoin(w, trace, p, r1, seen + {g}, r, seen);
  }

  /** A line, what it brings in, and what comes after. */
  lemma AccountsJoin(
      w: Reading, trace: seq<Phys>, p: Phys, r1: Outcome, seen1: set<string>, r: Outcome, seen: set<string>)
    requires r.Through? && r1.Through? && trace + [p] <= r1.trace <= r.trace && r1.seen <= r.seen
    requires Accounts(w, r1, seen1, |trace| + 1) && Accounts(w, r, r1.seen, |r1.trace|)
    requires w.legal(trace, p.line)
    requires p.line.Include? && w.live(trace) ==>
      Target(w, p.line.name).Some? && Target(w, p.line.name).value in r.seen
    requires forall g | g in seen1 && g !in seen ::
      p.line.Include? && w.live(trace) && Target(w, p.line.name) == Some(g)
    ensures Accounts(w, r, seen, |trace|)
  {
    assert r.trace[..|trace|] == trace && r.trace[|trace|] == p;
    forall i | 0 <= i <= |r1.trace|
      ensures r.trace[..i] == r1.trace[..i]
    {
    }
    forall g | g in r.seen && g !in seen
      ensures exists i: nat :: |trace| <= i < |r.trace| && IncludesAt(w, r.trace, i, g)
    {
      if g in r1.seen && g !in seen1 {
        var i: nat :| |trace| + 1 <= i < |r1.trace| && IncludesAt(w, r1.trace, i, g);
        assert IncludesAt(w, r.trace, i, g);
      } else if g in seen1 {
        assert IncludesAt(w, r.trace, |trace|, g);
      }
    }
    forall i | |trace| <= i < |r.trace|
      ensures w.legal(r.trace[..i], r.trace[i].line)
      ensures r.trace[i].line.Include? && w.live(r.trace[..i]) ==>
        Target(w, r.trace[i].line.name).Some? && Target(w, r.trace[i].line.name).value in r.seen
    {
      if |trace| < i < |r1.trace| {
        assert r.trace[i] == r1.trace[i];
        assert w.legal(r1.trace[..i], r1.trace[i].line);
      }
    }
  }

  /** A unit that is read to its end: entered are the top file and the files its surviving includes lead to. */
  lemma UnitAccounts(w: Reading, top: string)
    requires top in w.files && WholeUnit(w, top).Through?
    ensures var r := WholeUnit(w, top);
      && (forall g :: g in r.seen <==> g == top || exists i: nat :: i < |r.trace| && IncludesAt(w, r.trace, i, g))
      && (forall i | 0 <= i < |r.trace| :: w.legal(r.trace[..i], r.trace[i].line))
      && forall i | 0 <= i < |r.trace| && r.trace[i].line.Include? && w.live(r.trace[..i]) ::
        Target(w, r.trace[i].line.name).Some? && Target(w, r.trace[i].line.name).value in r.seen
  {
    WalkAccounts(w, top, 0, 1, {top}, []);
  }

  /** Why a unit stopped, on what had been read and entered by then. */
  ghost predicate Truthful(w: Reading, r: Outcome)
    requires r.Stopped?
  {
    match r.why
    case Illegal(p) => !w.legal(r.trace, p.line)
    case Unterminated(_, depth) => w.unfinished(r.trace, depth)
    case NotFound(p) => p.line.Include? && w.live(r.trace) && Target(w, p.line.name).None?
    case TooDeep(p) =>
      p.line.Include? && w.live(r.trace) && Target(w, p.line.name).Some? && Target(w, p.line.name).value !in r.seen
      && p.depth >= MAX_INCLUDE
    case TooMany(p) =>
      p.line.Include? && w.live(r.trace) && Target(w, p.line.name).Some? && Target(w, p.line.name).value !in r.seen
      && |r.seen| >= MAX_INC_SEEN
  }

  lemma {:induction false} WalkStopsTruly(
      w: Reading, f: string, l: nat, depth: nat, seen: set<string>, trace: seq<Phys>)
    requires f in w.files && l <= |w.files[f]| && |seen| <= MAX_INC_SEEN
    requires Walk(w, f, l, depth, seen, trace).Stopped?
    ensures Truthful(w, Walk(w, f, l, depth, seen, trace))
    decreases MAX_INC_SEEN - |seen|, |w.files[f]| - l
  {
    if l < |w.files[f]| {
      var p := Phys(f, l, w.files[f][l], depth);
      if Enters(w, seen, trace, p) {
        var g := Target(w, p.line.name).value;
        var r1 := Walk(w, g, 0, depth + 1, seen + {g}, trace + [p]);
        if r1.Stopped? {
          WalkStopsTruly(w, g, 0, depth + 1, seen + {g}, trace + [p]);
        } else if w.legal(trace, p.line) {
          WalkStopsTruly(w, f, l + 1, depth, r1.seen, r1.trace);
        }
      } else if Walk(w, f, l, depth, seen, trace) == Walk(w, f, l + 1, depth, seen, trace + [p]) {
        WalkStopsTruly(w, f, l + 1, depth, seen, trace + [p]);
      }
    }
  }

  /** When a file is through, none of the conditionals it opened is the innermost one still open. */
  lemma {:induction false} FilesCloseTheirConditionals(
      w: Reading, f: string, l: nat, depth: nat, seen: set<string>, trace: seq<Phys>)
    requires f in w.files && l <= |w.files[f]| && |seen| <= MAX_INC_SEEN
    requires Walk(w, f, l, depth, seen, trace).Through?
    ensures !w.unfinished(Walk(w, f, l, depth, seen, trace).trace, depth)
    decreases MAX_INC_SEEN - |seen|, |w.files[f]| - l
  {
    if l < |w.files[f]| {
      var p := Phys(f, l, w.files[f][l], depth);
      if Enters(w, seen, trace, p) {
        var g := Target(w, p.line.name).value;
        var r1 := Walk(w, g, 0, depth + 1, seen + {g}, trace + [p]);
        FilesCloseTheirConditionals(w, f, l + 1, depth, r1.seen, r1.trace);
      } else {
        FilesCloseTheirConditionals(w, f, l + 1, depth, seen, trace + [p]);
      }
    }
  }

  // --- a stack of open files as what remains of a walk -------------------------------------------------------

  predicate OnFiles(files: map<string, seq<SourceLine>>, stk: seq<Open>) {
    forall i | 0 <= i < |stk| :: stk[i].file in files && stk[i].next <= |files[stk[i].file]|
  }

  /** The innermost file to its end, then the ones around it. */
  ghost function Resume(w: Reading, stk: seq<Open>, seen: set<string>, trace: seq<Phys>): Outcome
    requires OnFiles(w.files, stk) && |seen| <= MAX_INC_SEEN
    decreases |stk|, 0
  {
    if stk == [] then Through(seen, trace)
    else GoOn(w, Under(stk), Walk(w, Top(stk).file, Top(stk).next, |stk|, seen, trace))
  }

  /** The open files, after one inside them ended as `r` says. */
  ghost function GoOn(w: Reading, stk: seq<Open>, r: Outcome): Outcome
    requires OnFiles(w.files, stk) && (r.Through? ==> |r.seen| <= MAX_INC_SEEN)
    decreases |stk|, 1
  {
    if r.Stopped? then r else Resume(w, stk, r.seen, r.trace)
  }

  /** After a surviving include `p` has been read. */
  ghost function Entering(w: Reading, stk: seq<Open>, seen: set<string>, before: seq<Phys>, p: Phys): Outcome
    requires OnFiles(w.files, stk) && |seen| <= MAX_INC_SEEN && p.line.Include?
  {
    var g := Target(w, p.line.name);
    if g.None? then Stopped(seen, before, NotFound(p))
    else if g.value in seen then Resume(w, stk, seen, before + [p])
    else if |stk| >= MAX_INCLUDE then Stopped(seen, before, TooDeep(p))
    else if |seen| >= MAX_INC_SEEN then Stopped(seen, before, TooMany(p))
    else Resume(w, stk + [Open(g.value, 0)], seen + {g.value}, before + [p])
  }

  /** The next line of the innermost file. */
  function LineAt(files: map<string, seq<SourceLine>>, stk: seq<Open>): Phys
    requires OnFiles(files, stk) && stk != [] && Top(stk).next < |files[Top(stk).file]|
  {
    Phys(Top(stk).file, Top(stk).next, files[Top(stk).file][Top(stk).next], |stk|)
  }

  lemma AdvancedOnFiles(files: map<string, seq<SourceLine>>, stk: seq<Open>)
    requires OnFiles(files, stk) && stk != [] && Top(stk).next < |files[Top(stk).file]|
    ensures OnFiles(files, Advanced(stk)) && |Advanced(stk)| == |stk| && Under(Advanced(stk)) == Under(stk)
    ensures Top(Advanced(stk)) == Open(Top(stk).file, Top(stk).next + 1)
  {
  }

  /** A file entered is the innermost one, and its includer goes on when it ends. */
  lemma ResumeInside(w: Reading, stk: seq<Open>, seen: set<string>, trace: seq<Phys>, p: Phys)
    requires OnFiles(w.files, stk) && stk != [] && Enters(w, seen, trace, p) && w.legal(trace, p.line)
    requires p.file in w.files && p.index < |w.files[p.file]|
    requires Top(stk) == Open(p.file, p.index + 1) && p.depth == |stk|
    ensures var g := Target(w, p.line.name).value;
      GoOn(w, Under(stk), WalkLine(w, p, seen, trace)) ==
        Resume(w, stk + [Open(g, 0)], seen + {g}, trace + [p])
  {
    var g := Target(w, p.line.name).value;
    var inner := stk + [Open(g, 0)];
    assert Under(inner) == stk && Top(inner) == Open(g, 0);
    var r := Walk(w, g, 0, p.depth + 1, seen + {g}, trace + [p]);
    assert Resume(w, inner, seen + {g}, trace + [p]) == GoOn(w, stk, r);
    if r.Through? {
      assert GoOn(w, stk, r) == Resume(w, stk, r.seen, r.trace);
    }
  }

  lemma GoOnLine(w: Reading, stk: seq<Open>, seen: set<string>, trace: seq<Phys>, p: Phys)
    requires OnFiles(w.files, stk) && stk != [] && |seen| <= MAX_INC_SEEN
    requires p.file in w.files && p.index < |w.files[p.file]|
    requires Top(stk) == Open(p.file, p.index + 1) && p.depth == |stk|
    ensures GoOn(w, Under(stk), WalkLine(w, p, seen, trace)) ==
      if !w.legal(trace, p.line) then Stopped(seen, trace, Illegal(p))
      else if p.line.Include? && w.live(trace) then Entering(w, stk, seen, trace, p)
      else Resume(w, stk, seen, trace + [p])
  {
    if w.legal(trace, p.line) && Enters(w, seen, trace, p) {
      ResumeInside(w, stk, seen, trace, p);
    }
  }

  /** One line read is one line less to walk. */
  lemma ResumeLine(w: Reading, stk: seq<Open>, seen: set<string>, trace: seq<Phys>)
    requires OnFiles(w.files, stk) && |seen| <= MAX_INC_SEEN
    requires stk != [] && Top(stk).next < |w.files[Top(stk).file]|
    ensures OnFiles(w.files, Advanced(stk))
    ensures var p := LineAt(w.files, stk);
      Resume(w, stk, seen, trace) ==
        if !w.legal(trace, p.line) then Stopped(seen, trace, Illegal(p))
        else if p.line.Include? && w.live(trace) then Entering(w, Advanced(stk), seen, trace, p)
        else Resume(w, Advanced(stk), seen, trace + [p])
  {
    AdvancedOnFiles(w.files, stk);
    var p := LineAt(w.files, stk);
    assert Resume(w, stk, seen, trace) == GoOn(w, Under(stk), WalkLine(w, p, seen, trace));
    GoOnLine(w, Advanced(stk), seen, trace, p);
  }

  lemma ResumeFirst(w: Reading, top: string)
    requires top in w.files
    ensures Resume(w, [Open(top, 0)], {top}, []) == WholeUnit(w, top)
  {
    var stk := [Open(top, 0)];
    assert Under(stk) == [];
    var r := WholeUnit(w, top);
    assert Resume(w, stk, {top}, []) == GoOn(w, [], r);
    if r.Through? {
      assert GoOn(w, [], r) == Resume(w, [], r.seen, r.trace);
    }
  }

  lemma ResumeNone(w: Reading, stk: seq<Open>, seen: set<string>, trace: seq<Phys>)
    requires |stk| == 0 && |seen| <= MAX_INC_SEEN
    ensures Resume(w, stk, seen, trace) == Through(seen, trace)
  {
  }

  /** At the end of a file the one around it goes on. */
  lemma ResumeEnd(w: Reading, stk: seq<Open>, seen: set<string>, trace: seq<Phys>)
    requires OnFiles(w.files, stk) && |seen| <= MAX_INC_SEEN
    requires stk != [] && Top(stk).next == |w.files[Top(stk).file]|
    ensures OnFiles(w.files, Under(stk))
    ensures Resume(w, stk, seen, trace) ==
      if w.unfinished(trace, |stk|) then Stopped(seen, trace, Unterminated(Top(stk).file, |stk|))
      else Resume(w, Under(stk), seen, trace)
  {
  }

  // --- the reader --------------------------------------------------------------------------------------------

  /** What one call gave: a line, the end of the unit, or what stops the assembly. */
  datatype Next = Line(p: Phys) | End | Error(why: Stop)

  /** What a unit delivers: its lines, or why there are none. */
  datatype Delivery = Lines(lines: seq<Phys>) | Failed(why: Stop)

  ghost function Delivered(e: Source, top: string): Delivery
    requires top in e.files
  {
    match WholeUnit(ReadingOf(e), top)
    case Through(_, trace) => Lines(Kept(e.defines, trace))
    case Stopped(_, _, why) => Failed(why)
  }

  /** Lines still to read in the open files. */
  function Remaining(files: map<string, seq<SourceLine>>, stk: seq<Open>): nat
    requires forall i | 0 <= i < |stk| :: stk[i].file in files && stk[i].next <= |files[stk[i].file]|
    decreases |stk|
  {
    if stk == [] then 0
    else |files[Top(stk).file]| - Top(stk).next + Remaining(files, Under(stk))
  }

  lemma ReadShrinks(files: map<string, seq<SourceLine>>, got: Progress, stk: seq<Open>)
    requires Opened(files, got, stk) && Top(stk).next < |files[Top(stk).file]|
    ensures forall i | 0 <= i < |stk| :: Advanced(stk)[i].next <= |files[Advanced(stk)[i].file]|
    ensures Remaining(files, Advanced(stk)) == Remaining(files, stk) - 1
  {
    assert Under(Advanced(stk)) == Under(stk);
  }

  /** One physical line, in its file. */
  lemma ReadPlace(files: map<string, seq<SourceLine>>, got: Progress, stk: seq<Open>, trace: seq<Phys>, p: Phys)
    requires Opened(files, got, stk) && Traced(files, got, trace)
    requires Top(stk).next < |files[Top(stk).file]|
    requires p == Phys(Top(stk).file, Top(stk).next, files[Top(stk).file][Top(stk).next], |stk|)
    ensures Opened(files, got[p.file := p.index + 1], Advanced(stk))
    ensures Traced(files, got[p.file := p.index + 1], trace + [p])
  {
    ReadKeepsTrace(files, got, trace, p.file, |stk|);
    ReadKeepsStack(files, got, stk);
  }

  /** One physical line that can stand where it is, among the conditionals. */
  lemma ReadRecord(defines: set<string>, cond: seq<CondLevel>, trace: seq<Phys>, p: Phys, sp: nat)
    requires Depths(cond, sp) && sp > 0 && p.depth == sp
    requires Mirrors(cond, Branches(defines, trace)) && Legal(Branches(defines, trace), p.line)
    ensures Depths(NextCond(defines, cond, p.line, sp), sp)
    ensures Mirrors(NextCond(defines, cond, p.line, sp), Branches(defines, trace + [p]))
    ensures Kept(defines, trace + [p]) ==
      Kept(defines, trace) + if (p.line.Text? || p.line.Include?) && CondLive(cond) then [p] else []
    ensures p.line.Text? || p.line.Include? ==> NextCond(defines, cond, p.line, sp) == cond
  {
    KeptByRecord(defines, cond, trace, p);
    DepthsStep(defines, cond, p.line, sp);
    RecordStep(defines, cond, trace, p, sp);
  }

  /** Where a line that can stand there leads, `stk` being past it already. */
  ghost predicate Follows(files: map<string, seq<SourceLine>>, defines: set<string>, got: Progress, stk: seq<Open>,
    cond: seq<CondLevel>, trace: seq<Phys>, p: Phys)
  {
    && p.file in got && Opened(files, got[p.file := p.index + 1], stk)
    && Traced(files, got[p.file := p.index + 1], trace + [p])
    && Mirrors(NextCond(defines, cond, p.line, |stk|), Branches(defines, trace + [p]))
    && Depths(NextCond(defines, cond, p.line, |stk|), |stk|)
    && Kept(defines, trace + [p]) ==
         Kept(defines, trace) + (if (p.line.Text? || p.line.Include?) && CondLive(cond) then [p] else [])
    && (p.line.Text? || p.line.Include? ==> NextCond(defines, cond, p.line, |stk|) == cond)
  }

  lemma ReadStep(files: map<string, seq<SourceLine>>, defines: set<string>, got: Progress, stk: seq<Open>,
      cond: seq<CondLevel>, trace: seq<Phys>, p: Phys)
    requires Opened(files, got, stk) && Traced(files, got, trace) && Depths(cond, |stk|)
    requires Mirrors(cond, Branches(defines, trace)) && Legal(Branches(defines, trace), p.line)
    requires Top(stk).next < |files[Top(stk).file]|
    requires p == Phys(Top(stk).file, Top(stk).next, files[Top(stk).file][Top(stk).next], |stk|)
    ensures Follows(files, defines, got, Advanced(stk), cond, trace, p)
  {
    ReadPlace(files, got, stk, trace, p);
    ReadRecord(defines, cond, trace, p, |stk|);
    assert |Advanced(stk)| == |stk|;
  }

  lemma CloseStep(files: map<string, seq<SourceLine>>, got: Progress, stk: seq<Open>, cond: seq<CondLevel>)
    requires Opened(files, got, stk) && Depths(cond, |stk|)
    requires Top(stk).next == |files[Top(stk).file]| && |stk| > 1
    requires cond == [] || cond[|cond| - 1].incSp != |stk|
    ensures Opened(files, got, Under(stk)) && Depths(cond, |Under(stk)|)
    ensures Remaining(files, Under(stk)) == Remaining(files, stk)
  {
    CloseKeepsStack(files, got, stk);
  }

  class IncState {
    const files: map<string, seq<SourceLine>>   // by canonical path
    const find: string -> Option<string>        // the canonical path of the file a name leads to
    const defines: set<string>                  // the names given with -D
    var stk: seq<Open>
    var seen: set<string>
    var cond: seq<CondLevel>
    ghost var got: Progress
    ghost var trace: seq<Phys>
    ghost const whole: Outcome                  // what the unit comes to

    ghost function Rules(): Reading { ReadingOf(Source(files, find, defines)) }

    ghost predicate Sound()
      reads this
    {
      && |seen| <= MAX_INC_SEEN && got.Keys == seen
      && Opened(files, got, stk) && Traced(files, got, trace)
      && Mirrors(cond, Branches(defines, trace)) && Depths(cond, |stk|)
    }

    /** What has been read, and what is still to come, make the whole. */
    ghost predicate Valid()
      reads this
    {
      Sound() && whole == Resume(Rules(), stk, seen, trace)
    }

    /** The include just read is still to be acted on. */
    ghost predicate Waits(p: Phys)
      reads this
    {
      && Sound() && p.line.Include? && trace != [] && trace == trace[..|trace| - 1] + [p]
      && whole == Entering(Rules(), stk, seen, trace[..|trace| - 1], p)
    }

    /** Begins a unit with the top file, which counts as entered. */
    constructor (e: Source, top: string)
      requires top in e.files
      ensures Valid() && files == e.files && find == e.find && defines == e.defines && trace == []
      ensures whole == WholeUnit(Rules(), top)
    {
      files, find, defines := e.files, e.find, e.defines;
      stk, seen, cond, got, trace := [Open(top, 0)], {top}, [], map[top := 0], [];
      whole := WholeUnit(ReadingOf(e), top);
      new;
      assert stk[0].file == top;
      ResumeFirst(Rules(), top);
    }

    /** One conditional directive, or a line that is none. */
    method CondLine(line: SourceLine, ghost bs: seq<Branch>) returns (directive: bool, ok: bool)
      requires Mirrors(cond, bs)
      modifies this`cond
      ensures directive == !(line.Text? || line.Include?)
      ensures ok == Legal(bs, line)
      ensures ok ==> cond == NextCond(defines, old(cond), line, |stk|)
    {
      directive, ok := true, true;
      match line {
        case Malformed => ok := false;
        case IfDef(n, negated) =>
          if |cond| >= MAX_COND {
            ok := false;
          } else {
            var hit := n in defines;
            if negated {
              hit := !hit;
            }
            var live := CondLive(cond);
            cond := cond + [CondLevel(live && hit, live, false, |stk|)];
          }
        case Else =>
          if |cond| == 0 || cond[|cond| - 1].seenElse {
            ok := false;
          } else {
            var c := cond[|cond| - 1];
            cond := cond[|cond| - 1 := c.(seenElse := true, emit := c.live && !c.emit)];
          }
        case EndIf =>
          if |cond| == 0 {
            ok := false;
          } else {
            cond := cond[..|cond| - 1];
          }
        case _ => directive := false;
      }
    }

    /** The line the innermost file is at, past which it is moved. */
    method Fetch() returns (p: Phys)
      requires Sound() && Top(stk).next < |files[Top(stk).file]|
      modifies this`stk
      ensures stk == Advanced(old(stk)) && p == LineAt(files, old(stk))
      ensures Legal(Branches(defines, trace), p.line) ==> Follows(files, defines, got, stk, cond, trace, p)
    {
      var (f, l) := (Top(stk).file, Top(stk).next);
      p := Phys(f, l, files[f][l], |stk|);
      if Legal(Branches(defines, trace), p.line) {
        ReadStep(files, defines, got, stk, cond, trace, p);
      }
      stk := Advanced(stk);
    }

    /** Acts on the line if it is a conditional, and says whether it survives. */
    method Judge(p: Phys) returns (ok: bool, kept: bool)
      requires |seen| <= MAX_INC_SEEN && got.Keys == seen && Mirrors(cond, Branches(defines, trace))
      requires Legal(Branches(defines, trace), p.line) ==> Follows(files, defines, got, stk, cond, trace, p)
      modifies this`cond, this`got, this`trace
      ensures ok == Legal(Branches(defines, old(trace)), p.line)
      ensures ok ==> Sound() && trace == old(trace) + [p]
      ensures ok ==> Kept(defines, trace) == Kept(defines, old(trace)) + if kept then [p] else []
      ensures kept == (ok && (p.line.Text? || p.line.Include?) && AllHold(Branches(defines, old(trace))))
    {
      LiveMeansAllHold(cond, Branches(defines, trace));
      var directive;
      directive, ok := CondLine(p.line, Branches(defines, trace));
      kept := ok && !directive && CondLive(cond);
      if ok {
        got, trace := got[p.file := p.index + 1], trace + [p];
      }
    }

    /** Reads one physical line of the innermost file. */
    method ReadOne() returns (p: Phys, ok: bool, kept: bool)
      requires Valid() && Top(stk).next < |files[Top(stk).file]|
      modifies this`stk, this`cond, this`got, this`trace
      ensures !ok ==> whole == Stopped(seen, old(trace), Illegal(p))
      ensures ok ==> Sound() && trace == old(trace) + [p]
      ensures ok ==> Remaining(files, stk) < Remaining(files, old(stk)) && |stk| == |old(stk)|
      ensures ok ==> Kept(defines, trace) == Kept(defines, old(trace)) + if kept then [p] else []
      ensures ok && kept ==> p.line.Text? || p.line.Include?
      ensures ok ==> if kept && p.line.Include? then Waits(p) else Valid()
    {
      ReadShrinks(files, got, stk);
      ResumeLine(Rules(), stk, seen, trace);
      p := Fetch();
      ok, kept := Judge(p);
    }

    /** Only the top file is open, and it is at its end. */
    ghost predicate AtEnd()
      reads this
    {
      Valid() && |stk| == 1 && Top(stk).next == |files[Top(stk).file]| && cond == []
    }

    /** Leaves a file that is not the top one and has left no conditional open. */
    method Leave()
      requires Sound() && Top(stk).next == |files[Top(stk).file]| && |stk| > 1
      requires cond == [] || cond[|cond| - 1].incSp != |stk|
      modifies this`stk
      ensures Sound() && stk == Under(old(stk)) && Remaining(files, stk) == Remaining(files, old(stk))
    {
      CloseStep(files, got, stk, cond);
      stk := Under(stk);
    }

    /** The innermost file is at its end: it is left, unless it is the top file or has left a conditional open. */
    method Close() returns (r: Option<Next>)
      requires Valid() && Top(stk).next == |files[Top(stk).file]|
      modifies this`stk
      ensures match r
        case Some(Error(why)) => whole.Stopped? && whole.why == why
        case Some(End) => AtEnd() && whole == Through(seen, trace)
        case Some(Line(_)) => false
        case None => Valid() && |stk| < |old(stk)| && Remaining(files, stk) <= Remaining(files, old(stk))
    {
      ResumeEnd(Rules(), stk, seen, trace);
      LevelIsOpen(cond, Branches(defines, trace), |stk|);
      if cond != [] && cond[|cond| - 1].incSp == |stk| {
        return Some(Error(Unterminated(Top(stk).file, |stk|)));
      }
      if |stk| == 1 {
        NothingOpen(cond);
        ResumeNone(Rules(), Under(stk), seen, trace);
        return Some(End);
      }
      Leave();
      r := None;
    }

    /** The next line that survives the conditionals, or the end, or the reason there is neither. */
    method NextLine() returns (r: Next)
      requires Valid()
      modifies this`stk, this`cond, this`got, this`trace
      ensures match r
        case Error(why) => whole.Stopped? && whole.why == why
        case End => AtEnd() && whole == Through(seen, trace) && Kept(defines, trace) == Kept(defines, old(trace))
        case Line(p) =>
          && Kept(defines, trace) == Kept(defines, old(trace)) + [p] && (p.line.Text? || p.line.Include?)
          && Opened(files, got, stk) && Remaining(files, stk) < Remaining(files, old(stk))
          && if p.line.Include? then Waits(p) else Valid()
    {
      while true
        invariant Valid() && Kept(defines, trace) == Kept(defines, old(trace))
        invariant Remaining(files, stk) <= Remaining(files, old(stk))
        decreases Remaining(files, stk), |stk|
      {
        if Top(stk).next < |files[Top(stk).file]| {
          var p, ok, kept := ReadOne();
          if !ok {
            return Error(Illegal(p));
          }
          if kept {
            return Next.Line(p);
          }
        } else {
          var closed := Close();
          if closed.Some? {
            return closed.value;
          }
        }
      }
    }

    lemma NothingOpen(cond: seq<CondLevel>)
      requires Depths(cond, 1) && (cond == [] || cond[|cond| - 1].incSp != 1)
      ensures cond == []
    {
    }

    /** Opens a file that has not been entered. */
    method Enter(g: string)
      requires Sound() && g in files && g !in seen && |stk| < MAX_INCLUDE && |seen| < MAX_INC_SEEN
      modifies this`stk, this`seen, this`got
      ensures Sound() && stk == old(stk) + [Open(g, 0)] && seen == old(seen) + {g} && |seen| == |old(seen)| + 1
    {
      PushKeeps(files, got, stk, trace, g);
      stk := stk + [Open(g, 0)];
      seen := seen + {g};
      got := got[g := 0];
    }

    /** `.include`: a file that has been entered already is passed over in silence, a new one is opened.
        It fails when the name leads nowhere, and when one of the limits would be passed. */
    method Push(p: Phys) returns (failed: Option<Stop>)
      requires Waits(p)
      modifies this`stk, this`seen, this`got
      ensures var g := Target(Rules(), p.line.name);
        failed ==
          if g.None? then Some(NotFound(p))
          else if g.value in old(seen) then None
          else if |old(stk)| >= MAX_INCLUDE then Some(TooDeep(p))
          else if |old(seen)| >= MAX_INC_SEEN then Some(TooMany(p))
          else None
      ensures failed.None? ==>
        var g := Target(Rules(), p.line.name).value;
        && Valid()
        && (if g in old(seen) then stk == old(stk) && seen == old(seen)
            else stk == old(stk) + [Open(g, 0)] && seen == old(seen) + {g} && |seen| == |old(seen)| + 1)
      ensures failed.Some? ==> stk == old(stk) && seen == old(seen) && whole.Stopped? && whole.why == failed.value
    {
      var g := find(p.line.name);
      if g.None? || g.value !in files {
        return Some(NotFound(p));
      }
      if g.value in seen {
        return None;
      }
      if |stk| >= MAX_INCLUDE {
        return Some(TooDeep(p));
      }
      if |seen| >= MAX_INC_SEEN {
        return Some(TooMany(p));
      }
      Enter(g.value);
      failed := None;
    }

    /** The next line of the unit; an include among them is acted on. */
    method Deliver() returns (r: Next)
      requires Valid()
      modifies this`stk, this`seen, this`cond, this`got, this`trace
      ensures match r
        case Error(why) => whole.Stopped? && whole.why == why
        case End => AtEnd() && whole == Through(seen, trace) && Kept(defines, trace) == Kept(defines, old(trace))
        case Line(p) =>
          && Valid() && Kept(defines, trace) == Kept(defines, old(trace)) + [p]
          && (|seen| > |old(seen)| || (seen == old(seen) && Remaining(files, stk) < Remaining(files, old(stk))))
    {
      r := NextLine();
      if r.Line? && r.p.line.Include? {
        var failed := Push(r.p);
        if failed.Some? {
          r := Error(failed.value);
        }
      }
    }

    /** The reading is complete: every line of every file entered has been read, once and in its
        file's order, and every conditional opened has been closed. */
    ghost predicate Complete()
      reads this
    {
      && (forall f | f in seen :: f in files)
      && (forall f, l: nat | f in seen && l < |files[f]| :: Was(trace, f, l))
      && (forall i | 0 <= i < |trace| :: trace[i].file in seen && Passed(files, got, trace[i]))
      && (forall i, j | 0 <= i < j < |trace| && trace[i].file == trace[j].file :: trace[i].index < trace[j].index)
      && Branches(defines, trace) == []
    }

    lemma EndIsComplete()
      requires AtEnd()
      ensures Complete()
    {
      forall f | f in seen
        ensures f in files && got[f] == |files[f]|
      {
        assert got[f] < |files[f]| ==> OnStack(stk, f);
      }
    }

    /** The whole unit: whatever includes whatever, cycles too, reading ends, and delivers the lines of the
        walk that survive, or fails for the reason the walk stops. */
    method ReadUnit() returns (out: Delivery)
      requires Valid() && trace == []
      modifies this
      ensures match whole
        case Through(seen1, trace1) =>
          out == Lines(Kept(defines, trace1)) && trace == trace1 && seen == seen1 && Complete()
        case Stopped(_, _, why) => out == Failed(why)
    {
      var lines: seq<Phys> := [];
      while true
        invariant Valid() && lines == Kept(defines, trace)
        decreases MAX_INC_SEEN - |seen|, Remaining(files, stk)
      {
        var r := Deliver();
        match r {
          case Error(why) => return Failed(why);
          case End =>
            EndIsComplete();
            return Lines(lines);
          case Line(p) => lines := lines + [p];
        }
      }
    }
  }

  /** From the top file: what is delivered is what the unit means. */
  method ReadSource(e: Source, top: string) returns (out: Delivery)
    requires top in e.files
    ensures out == Delivered(e, top)
  {
    var inc := new IncState(e, top);
    out := inc.ReadUnit();
  }
}
