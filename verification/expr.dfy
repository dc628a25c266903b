/** The constant expressions of `.equ`: a recursive descent that computes as it reads. Beside it are the
    grammar, as trees, and what a tree denotes; the descent is proved to compute the denotation. */
module Expressions {
  import opened Words
  import opened Cpu
  import opened Integers
  import opened Locator

  /** A constant: a 64-bit integer, or a double as its bits. */
  datatype Value = Int(i: int64) | Flt(f: uint64)

  /** Double arithmetic. */
  datatype Doubles = Doubles(
    add: (uint64, uint64) -> uint64, sub: (uint64, uint64) -> uint64, mul: (uint64, uint64) -> uint64,
    div: (uint64, uint64) -> uint64, neg: uint64 -> uint64, ofInt: int64 -> uint64, isZero: uint64 -> bool)

  datatype Binary = OrOp | XorOp | AndOp | ShlOp | ShrOp | AddOp | SubOp | MulOp | DivOp | RemOp
  datatype Unary = Minus | Plus | Invert

  datatype Expr = Lit(value: Value) | Name(name: string) | Un(op: Unary, e: Expr) | Bin(bop: Binary, l: Expr, r: Expr)

  type Env = map<string, Value>

  // --- what operators do --------------------------------------------------------------------------

  function AsDouble(d: Doubles, v: Value): uint64 { if v.Flt? then v.f else d.ofInt(v.i) }

  /** Operators on two integers. Stricter than C: a quotient with a remainder is an error. */
  function OnInts(op: Binary, a: int64, b: int64): Option<Value> {
    match op
    case OrOp => Some(Int(Or(a, b)))
    case XorOp => Some(Int(Xor(a, b)))
    case AndOp => Some(Int(And(a, b)))
    case ShlOp => if 0 <= b <= 63 then Some(Int(Shl(a, b))) else None
    case ShrOp => if 0 <= b <= 63 then Some(Int(FloorShift(a, b))) else None
    case AddOp => Some(Int(Wrap64((a as int) + (b as int))))
    case SubOp => Some(Int(Wrap64((a as int) - (b as int))))
    case MulOp => Some(Int(Wrap64((a as int) * (b as int))))
    case DivOp => if b == 0 || (a as int) % (b as int) != 0 then None else Some(Int(Quotient(a, b)))
    case RemOp => if b == 0 then None else Some(Int(Remainder(a, b)))
  }

  /** One float operand makes the operation a float one; only the four operations exist on floats. */
  function OnDoubles(d: Doubles, op: Binary, x: uint64, y: uint64): Option<Value> {
    match op
    case AddOp => Some(Flt(d.add(x, y)))
    case SubOp => Some(Flt(d.sub(x, y)))
    case MulOp => Some(Flt(d.mul(x, y)))
    case DivOp => if d.isZero(y) then None else Some(Flt(d.div(x, y)))
    case _ => None
  }

  function Apply(d: Doubles, op: Binary, a: Value, b: Value): Option<Value> {
    if a.Int? && b.Int? then OnInts(op, a.i, b.i) else OnDoubles(d, op, AsDouble(d, a), AsDouble(d, b))
  }

  function ApplyUnary(d: Doubles, op: Unary, a: Value): Option<Value> {
    match op
    case Plus => Some(a)
    case Minus => Some(if a.Int? then Int(Wrap64(-(a.i as int))) else Flt(d.neg(a.f)))
    case Invert => if a.Int? then Some(Int(Wrap64(-(a.i as int) - 1))) else None
  }

  /** What a tree denotes, or None for an error anywhere in it. */
  function Denote(d: Doubles, env: Env, e: Expr): Option<Value> {
    match e
    case Lit(v) => Some(v)
    case Name(n) => if n in env then Some(env[n]) else None
    case Un(op, x) =>
      var v := Denote(d, env, x);
      if v.None? then None else ApplyUnary(d, op, v.value)
    case Bin(op, l, r) =>
      var (a, b) := (Denote(d, env, l), Denote(d, env, r));
      if a.None? || b.None? then None else Apply(d, op, a.value, b.value)
  }

  // --- the exact quotient ---------------------------------------------------------------------------

  lemma QuotientIs(a: int64, b: int64, k: int)
    requires b != 0 && Times(k, b) == a
    ensures Quotient(a, b) == Wrap64(k)
  {
    Distribute(k, 0, b);
    if k >= 0 {
      Factor(k, Magnitude(b));
      assert Times(k, Magnitude(b)) == Magnitude(a);
    } else {
      Distribute(-k, 0, b);
      Factor(-k, Magnitude(b));
      assert Times(-k, Magnitude(b)) == Magnitude(a);
    }
  }

  /** A quotient is no larger than its dividend, so it wraps in one case only. */
  lemma QuotientFits(a: int64, b: int64, k: int)
    requires b != 0 && Times(k, b) == a
    ensures -0x8000_0000_0000_0000 <= k <= 0x8000_0000_0000_0000
    ensures k == 0x8000_0000_0000_0000 ==> a == -0x8000_0000_0000_0000 && b == -1
  {
    var (n, y) := (Magnitude(k), Magnitude(b));
    Distribute(k, 0, b);
    assert Times(n, y) == Magnitude(a);
    if n > 0 {
      NotSmaller(y, n);
      assert Times(y, n) == Times(n, y);
    }
  }

  /** The quotient is accepted exactly when there is one without a remainder, and multiplied back it
      gives the dividend: in 64-bit arithmetic always, in the integers whenever it does not wrap. */
  lemma ExactQuotient(a: int64, b: int64)
    ensures OnInts(DivOp, a, b).Some? <==> b != 0 && exists k: int :: Times(k, b) == a
    ensures OnInts(DivOp, a, b).Some? ==>
      var q := OnInts(DivOp, a, b).value.i;
      && Wrap64(Times(q, b)) == a
      && (!(a == -0x8000_0000_0000_0000 && b == -1) ==> Times(q, b) == a)
  {
    if b != 0 {
      if k: int :| Times(k, b) == a {
        Factor(k, b);
      }
      if (a as int) % (b as int) == 0 {
        var k := (a as int) / (b as int);
        assert Times(k, b) == a;
        QuotientIs(a, b, k);
        QuotientFits(a, b, k);
      }
    }
  }

  // --- tokens and the grammar ----------------------------------------------------------------------

  datatype Token = Number(value: Value) | Ident(name: string) | Op(op: Binary) | Tilde | Open | Close

  /** The six binary levels, `|` the loosest; unary operators bind tighter and primaries tightest. */
  function LevelOf(op: Binary): nat {
    match op
    case OrOp => 0
    case XorOp => 1
    case AndOp => 2
    case ShlOp | ShrOp => 3
    case AddOp | SubOp => 4
    case MulOp | DivOp | RemOp => 5
  }

  const UNARY := 6
  const PRIMARY := 7

  function Level(e: Expr): nat {
    match e
    case Bin(op, _, _) => LevelOf(op)
    case Un(_, _) => UNARY
    case _ => PRIMARY
  }

  predicate IsOpAt(ts: seq<Token>, level: nat) { ts != [] && ts[0].Op? && LevelOf(ts[0].op) == level }

  /** `+` and `-` are also unary operators. */
  function UnaryAt(ts: seq<Token>): Option<Unary> {
    if ts == [] then None
    else if ts[0] == Op(SubOp) then Some(Minus)
    else if ts[0] == Op(AddOp) then Some(Plus)
    else if ts[0] == Tilde then Some(Invert)
    else None
  }

  type Parse = Option<(Expr, seq<Token>)>

  /** The grammar: a level is a list of the next level's phrases joined by its operators, grouped to
      the left. */
  function ParseLevel(ts: seq<Token>, level: nat): (r: Parse)
    requires level <= UNARY
    ensures r.Some? ==> |r.value.1| < |ts|
    decreases |ts|, 2, UNARY - level
  {
    if level == UNARY then ParseUnary(ts)
    else
      match ParseLevel(ts, level + 1)
      case None => None
      case Some(p) => ParseMore(p.0, p.1, level)
  }

  function ParseMore(e: Expr, ts: seq<Token>, level: nat): (r: Parse)
    requires level < UNARY
    ensures r.Some? ==> |r.value.1| <= |ts|
    decreases |ts|, 3
  {
    if !IsOpAt(ts, level) then Some((e, ts))
    else
      match ParseLevel(ts[1..], level + 1)
      case None => None
      case Some(p) => ParseMore(Bin(ts[0].op, e, p.0), p.1, level)
  }

  function ParseUnary(ts: seq<Token>): (r: Parse)
    ensures r.Some? ==> |r.value.1| < |ts|
    decreases |ts|, 1
  {
    var op := UnaryAt(ts);
    if op.Some? then
      match ParseUnary(ts[1..])
      case None => None
      case Some(p) => Some((Un(op.value, p.0), p.1))
    else ParsePrimary(ts)
  }

  function ParsePrimary(ts: seq<Token>): (r: Parse)
    ensures r.Some? ==> |r.value.1| < |ts|
    decreases |ts|, 0
  {
    if ts == [] then None
    else
      match ts[0]
      case Number(v) => Some((Lit(v), ts[1..]))
      case Ident(n) => Some((Name(n), ts[1..]))
      case Open =>
        (match ParseLevel(ts[1..], 0)
         case None => None
         case Some(p) => if p.1 == [] || p.1[0] != Close then None else Some((p.0, p.1[1..])))
      case _ => None
  }

  /** The tree of a whole text. */
  function Tree(ts: seq<Token>): Option<Expr> {
    match ParseLevel(ts, 0)
    case None => None
    case Some(p) => if p.1 == [] then Some(p.0) else None
  }

  // --- printing with the fewest parentheses -------------------------------------------------------------

  function UnaryToken(op: Unary): Token {
    match op
    case Minus => Op(SubOp)
    case Plus => Op(AddOp)
    case Invert => Tilde
  }

  /** The text of a tree where a phrase of `level` is wanted. */
  function Text(e: Expr, level: nat): (ts: seq<Token>)
    ensures ts != []
    decreases e, 1
  {
    if Level(e) < level then [Open] + Bare(e) + [Close] else Bare(e)
  }

  function Bare(e: Expr): (ts: seq<Token>)
    ensures ts != []
    decreases e, 0
  {
    match e
    case Lit(v) => [Number(v)]
    case Name(n) => [Ident(n)]
    case Un(op, x) => [UnaryToken(op)] + Text(x, UNARY)
    case Bin(op, l, r) => Text(l, LevelOf(op)) + [Op(op)] + Text(r, LevelOf(op) + 1)
  }

  /** What follows does not continue a phrase of a level tighter than `level`. */
  predicate Ends(rest: seq<Token>, level: nat) {
    rest == [] || !rest[0].Op? || LevelOf(rest[0].op) <= level
  }

  /** What the reader has once it has read `e`: below the unary level it goes on with its operators. */
  function Onward(e: Expr, rest: seq<Token>, level: nat): Parse
    requires level <= UNARY
  {
    if level == UNARY then Some((e, rest)) else ParseMore(e, rest, level)
  }

  lemma ParseStops(e: Expr, rest: seq<Token>, level: nat)
    requires level < UNARY && Ends(rest, level)
    ensures Onward(e, rest, level + 1) == Some((e, rest))
  {
  }

  lemma AfterFirst(t: Token, more: seq<Token>, rest: seq<Token>)
    ensures [t] + more + rest == [t] + (more + rest)
    ensures ([t] + more + rest)[1..] == more + rest
  {
  }

  lemma PrimaryText(e: Expr, rest: seq<Token>)
    requires e.Lit? || e.Name?
    ensures ParseUnary(Bare(e) + rest) == Some((e, rest))
  {
    assert (Bare(e) + rest)[1..] == rest;
  }

  /** A printed tree reads back as itself: first the phrase, then whatever goes on after it. */
  lemma {:induction false} TextReads(e: Expr, level: nat, rest: seq<Token>)
    requires level <= UNARY && Ends(rest, level)
    ensures ParseLevel(Text(e, level) + rest, level) == Onward(e, rest, level)
    decreases e, if Level(e) < level then 1 else 0, UNARY - level
  {
    if level == UNARY {
      TextReadsUnary(e, rest);
    } else if Level(e) == level {
      TextReadsBinary(e, rest);
    } else {
      assert Text(e, level) == Text(e, level + 1);
      TextReads(e, level + 1, rest);
      ParseStops(e, rest, level);
    }
  }

  lemma {:induction false} TextReadsBinary(e: Expr, rest: seq<Token>)
    requires e.Bin? && Ends(rest, LevelOf(e.bop))
    ensures ParseLevel(Bare(e) + rest, LevelOf(e.bop)) == Onward(e, rest, LevelOf(e.bop))
    decreases e, 0, UNARY - LevelOf(e.bop), 0
  {
    var (op, l, r, level) := (e.bop, e.l, e.r, LevelOf(e.bop));
    var right := Text(r, level + 1) + rest;
    assert Bare(e) + rest == Text(l, level) + ([Op(op)] + right);
    TextReads(l, level, [Op(op)] + right);
    assert ([Op(op)] + right)[1..] == right;
    TextReads(r, level + 1, rest);
    ParseStops(r, rest, level);
  }

  lemma {:induction false} TextReadsUnary(e: Expr, rest: seq<Token>)
    requires Ends(rest, UNARY)
    ensures ParseLevel(Text(e, UNARY) + rest, UNARY) == Some((e, rest))
    decreases e, if Level(e) < UNARY then 1 else 0, 0, 0
  {
    if e.Bin? {
      var ts := [Open] + Bare(e) + [Close] + rest;
      assert ts[1..] == Text(e, 0) + ([Close] + rest);
      TextReads(e, 0, [Close] + rest);
      assert ParseLevel(ts[1..], 0) == Some((e, [Close] + rest));
      assert ([Close] + rest)[1..] == rest;
      assert ParsePrimary(ts) == Some((e, rest));
      assert Text(e, UNARY) + rest == ts;
    } else if e.Un? {
      assert Text(e, UNARY) == [UnaryToken(e.op)] + Text(e.e, UNARY);
      AfterFirst(UnaryToken(e.op), Text(e.e, UNARY), rest);
      TextReadsUnary(e.e, rest);
    } else {
      PrimaryText(e, rest);
    }
  }

  /** Printing with the fewest parentheses and reading are inverse. */
  lemma TreeOfText(e: Expr)
    ensures Tree(Text(e, 0)) == Some(e)
  {
    TextReads(e, 0, []);
    assert Text(e, 0) + [] == Text(e, 0);
  }

  /** What a text denotes: the value of its tree, or an error. */
  function Meaning(d: Doubles, env: Env, ts: seq<Token>): Option<Value> {
    match Tree(ts)
    case None => None
    case Some(e) => Denote(d, env, e)
  }

  /** The text of a tree means what the tree denotes: precedences, grouping and types as written. */
  lemma MeaningOfText(d: Doubles, env: Env, e: Expr)
    ensures Meaning(d, env, Text(e, 0)) == Denote(d, env, e)
  {
    TreeOfText(e);
  }

  /** An error in what has been read already is an error of the whole. */
  lemma {:induction false} ErrorsRemain(d: Doubles, env: Env, e: Expr, ts: seq<Token>, level: nat)
    requires level < UNARY && Denote(d, env, e).None? && ParseMore(e, ts, level).Some?
    ensures Denote(d, env, ParseMore(e, ts, level).value.0).None?
    decreases |ts|
  {
    if IsOpAt(ts, level) {
      var p := ParseLevel(ts[1..], level + 1).value;
      ErrorsRemain(d, env, Bin(ts[0].op, e, p.0), p.1, level);
    }
  }

  // --- the evaluator ----------------------------------------------------------------------------------------

  /** The cursor on the text. Values are computed while reading; no tree is built. */
  class EScan {
    const toks: seq<Token>
    const env: Env
    const d: Doubles
    var at: nat

    ghost predicate Valid()
      reads this
    {
      at <= |toks|
    }

    /** A value is the denotation of what was read; an error means there is none. */
    ghost predicate Evaluated(v: Option<Value>, p: Parse)
      requires Valid()
      reads this
    {
      match v
      case Some(x) => p.Some? && p.value.1 == toks[at..] && Denote(d, env, p.value.0) == Some(x)
      case None => p.None? || Denote(d, env, p.value.0).None?
    }

    constructor (toks: seq<Token>, env: Env, d: Doubles)
      ensures Valid() && at == 0 && this.toks == toks && this.env == env && this.d == d
    {
      this.toks, this.env, this.d, at := toks, env, d, 0;
    }

    method Primary() returns (v: Option<Value>)
      requires Valid()
      modifies this
      ensures Valid() && old(at) <= at && (v.Some? ==> old(at) < at)
      ensures Evaluated(v, ParsePrimary(old(toks[at..])))
      decreases |toks| - at, 0, 0
    {
      if at == |toks| {
        return None;
      }
      var t := toks[at];
      ghost var rest := toks[at..];
      assert rest[1..] == toks[at + 1..];
      match t {
        case Number(x) =>
          at := at + 1;
          v := Some(x);
        case Ident(n) =>
          if n !in env {
            return None;
          }
          at := at + 1;
          v := Some(env[n]);
        case Open =>
          at := at + 1;
          v := Binary(0);
          if v.Some? {
            if at == |toks| || toks[at] != Close {
              return None;
            }
            ghost var inner := toks[at..];
            at := at + 1;
            assert inner[1..] == toks[at..];
          }
        case _ => v := None;
      }
    }

    method Unary() returns (v: Option<Value>)
      requires Valid()
      modifies this
      ensures Valid() && old(at) <= at && (v.Some? ==> old(at) < at)
      ensures Evaluated(v, ParseUnary(old(toks[at..])))
      decreases |toks| - at, 1, 0
    {
      var op := UnaryAt(toks[at..]);
      if op.None? {
        v := Primary();
        return;
      }
      assert toks[at..][1..] == toks[at + 1..];
      at := at + 1;
      var x := Unary();
      v := if x.None? then None else ApplyUnary(d, op.value, x.value);
    }

    /** One binary level: operands of the next level, combined from the left as they are read. */
    method Binary(level: nat) returns (v: Option<Value>)
      requires Valid() && level <= UNARY
      modifies this
      ensures Valid() && old(at) <= at && (v.Some? ==> old(at) < at)
      ensures Evaluated(v, ParseLevel(old(toks[at..]), level))
      decreases |toks| - at, 2, UNARY - level
    {
      if level == UNARY {
        v := Unary();
        return;
      }
      ghost var goal := ParseLevel(toks[at..], level);
      v := Binary(level + 1);
      if v.None? {
        ghost var p := ParseLevel(old(toks[at..]), level + 1);
        if p.Some? && goal.Some? {
          ErrorsRemain(d, env, p.value.0, p.value.1, level);
        }
        return;
      }
      ghost var e := ParseLevel(old(toks[at..]), level + 1).value.0;
      while IsOpAt(toks[at..], level)
        invariant Valid() && old(at) < at && v.Some?
        invariant Denote(d, env, e) == v && goal == ParseMore(e, toks[at..], level)
        decreases |toks| - at
      {
        var op := toks[at].op;
        ghost var before := toks[at..];
        assert before[1..] == toks[at + 1..];
        at := at + 1;
        var b := Binary(level + 1);
        ghost var p := ParseLevel(before[1..], level + 1);
        var r := if b.None? then None else Apply(d, op, v.value, b.value);
        if r.None? {
          if p.Some? && goal.Some? {
            ErrorsRemain(d, env, Bin(op, e, p.value.0), p.value.1, level);
          }
          return None;
        }
        e := Bin(op, e, p.value.0);
        v := r;
      }
    }

    /** The whole text: it always ends, and gives what the text means. */
    method Evaluate() returns (v: Option<Value>)
      requires Valid() && at == 0
      modifies this
      ensures v == Meaning(d, env, toks)
    {
      assert toks[0..] == toks;
      v := Binary(0);
      if v.Some? && at != |toks| {
        v := None;
      }
    }
  }
}
