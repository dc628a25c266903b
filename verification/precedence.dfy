/** What the operators of `.equ` mean: which of two takes its operand first, operator by operator, and
    which instruction of the core computes the same. */
module ConstantMeaning {
  import opened Words
  import opened Cpu
  import opened Locator
  import opened Expressions

  // --- precedence -----------------------------------------------------------------------------------

  /** The operators of C that a constant may use, the loosest first. */
  const CHAIN: seq<set<Binary>> :=
    [{OrOp}, {XorOp}, {AndOp}, {ShlOp, ShrOp}, {AddOp, SubOp}, {MulOp, DivOp, RemOp}]

  /** `q` stands strictly later in the chain than `p`. */
  predicate Later(p: Binary, q: Binary) {
    exists i, j :: 0 <= i < j < |CHAIN| && p in CHAIN[i] && q in CHAIN[j]
  }

  lemma PlaceInChain(p: Binary)
    ensures LevelOf(p) < |CHAIN| && forall i | 0 <= i < |CHAIN| :: p in CHAIN[i] <==> i == LevelOf(p)
  {
  }

  lemma LaterIsTighter(p: Binary, q: Binary)
    ensures Later(p, q) <==> LevelOf(p) < LevelOf(q)
  {
    PlaceInChain(p);
    PlaceInChain(q);
    if LevelOf(p) < LevelOf(q) {
      assert p in CHAIN[LevelOf(p)] && q in CHAIN[LevelOf(q)];
    }
  }

  /** An operand as it is written: a number, a name, a signed one, or anything in parentheses. */
  function Operand(e: Expr): seq<Token> { Text(e, UNARY) }

  predicate Follows(rest: seq<Token>, level: nat) { rest == [] || (rest[0].Op? && LevelOf(rest[0].op) < level) }

  /** A phrase that nothing continues at the looser levels is a phrase of each of them. */
  lemma {:induction false} Climb(ts: seq<Token>, e: Expr, rest: seq<Token>, tight: nat, level: nat)
    requires level <= tight <= UNARY && Follows(rest, level) && ParseLevel(ts, tight) == Some((e, rest))
    ensures ParseLevel(ts, level) == Some((e, rest))
    decreases tight - level
  {
    if level < tight {
      Climb(ts, e, rest, tight, level + 1);
      ParseStops(e, rest, level);
    }
  }

  /** An operand before an operator looser than `level`, or at the end, is a phrase of that level. */
  lemma OperandAlone(e: Expr, rest: seq<Token>, level: nat)
    requires level <= UNARY && Follows(rest, level)
    ensures ParseLevel(Operand(e) + rest, level) == Some((e, rest))
  {
    TextReads(e, UNARY, rest);
    Climb(Operand(e) + rest, e, rest, UNARY, level);
  }

  /** A phrase of the next level, an operator of this one and an operand. */
  lemma OneMoreOperand(ts: seq<Token>, e: Expr, q: Binary, c: Expr, rest: seq<Token>)
    requires ParseLevel(ts, LevelOf(q)) == ParseMore(e, [Op(q)] + (Operand(c) + rest), LevelOf(q))
    requires Follows(rest, LevelOf(q) + 1)
    ensures ParseLevel(ts, LevelOf(q)) == ParseMore(Bin(q, e, c), rest, LevelOf(q))
  {
    var more := Operand(c) + rest;
    assert ([Op(q)] + more)[1..] == more;
    OperandAlone(c, rest, LevelOf(q) + 1);
  }

  /** One operator between two operands. */
  lemma OneOperator(a: Expr, p: Binary, b: Expr, rest: seq<Token>, level: nat)
    requires level <= LevelOf(p) && Follows(rest, level)
    ensures ParseLevel(Operand(a) + ([Op(p)] + (Operand(b) + rest)), level) == Some((Bin(p, a, b), rest))
  {
    var ts := Operand(a) + ([Op(p)] + (Operand(b) + rest));
    OperandAlone(a, [Op(p)] + (Operand(b) + rest), LevelOf(p) + 1);
    OneMoreOperand(ts, a, p, b, rest);
    Climb(ts, Bin(p, a, b), rest, LevelOf(p), level);
  }

  function ThreeOperands(a: Expr, p: Binary, b: Expr, q: Binary, c: Expr): seq<Token> {
    Operand(a) + [Op(p)] + Operand(b) + [Op(q)] + Operand(c)
  }

  lemma RightFirst(a: Expr, p: Binary, b: Expr, q: Binary, c: Expr, ts: seq<Token>)
    requires LevelOf(p) < LevelOf(q) && ts == Operand(a) + ([Op(p)] + (Operand(b) + ([Op(q)] + Operand(c))))
    ensures ParseLevel(ts, 0) == Some((Bin(p, a, Bin(q, b, c)), []))
  {
    var more := Operand(b) + ([Op(q)] + (Operand(c) + []));
    assert Operand(c) + [] == Operand(c) && ([Op(p)] + more)[1..] == more;
    OperandAlone(a, [Op(p)] + more, LevelOf(p) + 1);
    OneOperator(b, q, c, [], LevelOf(p) + 1);
    assert ts == Operand(a) + ([Op(p)] + more);
    assert ParseMore(a, [Op(p)] + more, LevelOf(p)) == ParseMore(Bin(p, a, Bin(q, b, c)), [], LevelOf(p));
    Climb(ts, Bin(p, a, Bin(q, b, c)), [], LevelOf(p), 0);
  }

  lemma LeftFirst(a: Expr, p: Binary, b: Expr, q: Binary, c: Expr, ts: seq<Token>)
    requires LevelOf(q) <= LevelOf(p) && ts == Operand(a) + ([Op(p)] + (Operand(b) + ([Op(q)] + Operand(c))))
    ensures ParseLevel(ts, 0) == Some((Bin(q, Bin(p, a, b), c), []))
  {
    var tail := [Op(q)] + (Operand(c) + []);
    assert Operand(c) + [] == Operand(c);
    if LevelOf(q) == LevelOf(p) {
      OperandAlone(a, [Op(p)] + (Operand(b) + tail), LevelOf(p) + 1);
      OneMoreOperand(ts, a, p, b, tail);
    } else {
      OneOperator(a, p, b, tail, LevelOf(q) + 1);
    }
    OneMoreOperand(ts, Bin(p, a, b), q, c, []);
    Climb(ts, Bin(q, Bin(p, a, b), c), [], LevelOf(q), 0);
  }

  /** Between two operators an operand goes to the one that stands later in the chain, and to the left one
      of equals. */
  lemma LaterBindsTighter(a: Expr, p: Binary, b: Expr, q: Binary, c: Expr)
    ensures Tree(ThreeOperands(a, p, b, q, c)) ==
      Some(if Later(p, q) then Bin(p, a, Bin(q, b, c)) else Bin(q, Bin(p, a, b), c))
  {
    LaterIsTighter(p, q);
    var ts := Operand(a) + ([Op(p)] + (Operand(b) + ([Op(q)] + Operand(c))));
    assert ThreeOperands(a, p, b, q, c) == ts;
    if LevelOf(p) < LevelOf(q) {
      RightFirst(a, p, b, q, c, ts);
    } else {
      LeftFirst(a, p, b, q, c, ts);
    }
  }

  /** A sign belongs to its operand, before any binary operator. */
  lemma SignsBindTightest(a: Expr, p: Binary, b: Expr)
    ensures Tree([Op(SubOp)] + Operand(a) + [Op(p)] + Operand(b)) == Some(Bin(p, Un(Minus, a), b))
    ensures Tree([Op(AddOp)] + Operand(a) + [Op(p)] + Operand(b)) == Some(Bin(p, Un(Plus, a), b))
    ensures Tree([Tilde] + Operand(a) + [Op(p)] + Operand(b)) == Some(Bin(p, Un(Invert, a), b))
  {
    SignFirst(Minus, a, p, b);
    SignFirst(Plus, a, p, b);
    SignFirst(Invert, a, p, b);
  }

  lemma SignFirst(op: Unary, a: Expr, p: Binary, b: Expr)
    ensures Tree([UnaryToken(op)] + Operand(a) + [Op(p)] + Operand(b)) == Some(Bin(p, Un(op, a), b))
  {
    OneOperator(Un(op, a), p, b, [], 0);
    assert Operand(Un(op, a)) == Bare(Un(op, a));
    assert Operand(b) + [] == Operand(b);
    assert [UnaryToken(op)] + Operand(a) + [Op(p)] + Operand(b)
        == Operand(Un(op, a)) + ([Op(p)] + (Operand(b) + []));
  }

  /** How operands are written: parentheses are needed around a binary operation, and nowhere else. */
  lemma OperandsAsWritten(v: Value, n: string, a: Expr, p: Binary, b: Expr)
    ensures Operand(Lit(v)) == [Number(v)] && Operand(Name(n)) == [Ident(n)]
    ensures exists ts :: Operand(Bin(p, a, b)) == [Open] + ts + [Close] && Tree(ts) == Some(Bin(p, a, b))
  {
    assert Operand(Lit(v)) == Bare(Lit(v)) && Operand(Name(n)) == Bare(Name(n));
    TreeOfText(Bin(p, a, b));
    assert Operand(Bin(p, a, b)) == [Open] + Text(Bin(p, a, b), 0) + [Close];
  }

  // --- values -----------------------------------------------------------------------------------------

  /** The instruction that computes an operator on two registers. */
  function CoreOp(p: Binary): Cpu.Op {
    match p
    case OrOp => OR
    case XorOp => XOR
    case AndOp => AND
    case ShlOp => SLLI
    case ShrOp => SRAI
    case AddOp => ADD
    case SubOp => SUB
    case MulOp => MUL
    case DivOp => DIV
    case RemOp => REM
  }

  /** What the assembler computes on integers is what the core would compute, wherever the assembler
      accepts it: it refuses shift counts the core reduces, and quotients the core truncates. */
  lemma ConstantsComputeAsTheCore(d: Doubles, p: Binary, s: State, bus: Bus, ins: Instr)
    requires Encoded(ins) && ins.op == CoreOp(p)
    requires p in {ShlOp, ShrOp} ==> -0x8000_0000_0000_0000 <= ins.imm < 0x8000_0000_0000_0000
    ensures var a := s.r[ins.b];
      var b := if p in {ShlOp, ShrOp} then ins.imm else s.r[ins.c];
      Apply(d, p, Int(a), Int(b)) ==
        if (p in {ShlOp, ShrOp} && !(0 <= b <= 63)) || (p in {DivOp, RemOp} && b == 0) || (p == DivOp && a % b != 0)
        then None else Some(Int(IntegerResult(s, bus, ins)))
  {
  }

  /** One float operand makes the operation one of floats, the integer converted; bits and remainders of
      floats do not exist, and neither does a division by a zero. */
  lemma OneFloatIsEnough(d: Doubles, a: Value, b: Value)
    requires a.Flt? || b.Flt?
    ensures var (x, y) := (if a.Flt? then a.f else d.ofInt(a.i), if b.Flt? then b.f else d.ofInt(b.i));
      && Apply(d, AddOp, a, b) == Some(Flt(d.add(x, y))) && Apply(d, SubOp, a, b) == Some(Flt(d.sub(x, y)))
      && Apply(d, MulOp, a, b) == Some(Flt(d.mul(x, y)))
      && Apply(d, DivOp, a, b) == (if d.isZero(y) then None else Some(Flt(d.div(x, y))))
      && forall p | p in {OrOp, XorOp, AndOp, ShlOp, ShrOp, RemOp} :: Apply(d, p, a, b).None?
  {
  }

  /** `-a` is 0 - a, `~a` is what is left of -1 when a is taken from it, and `+a` is a. */
  lemma SignsAreDifferences(d: Doubles, a: int64)
    ensures ApplyUnary(d, Minus, Int(a)) == Apply(d, SubOp, Int(0), Int(a))
    ensures ApplyUnary(d, Invert, Int(a)) == Apply(d, SubOp, Int(-1), Int(a))
    ensures ApplyUnary(d, Plus, Int(a)) == Some(Int(a))
  {
  }

  /** 2 + 3 * 4 is 14. */
  lemma TwoAndThreeTimesFour(d: Doubles, env: Env)
    ensures var (two, three, four) := (Number(Int(2)), Number(Int(3)), Number(Int(4)));
      Meaning(d, env, [two, Op(AddOp), three, Op(MulOp), four]) == Some(Int(14))
  {
    var (a, b, c) := (Lit(Int(2)), Lit(Int(3)), Lit(Int(4)));
    LaterBindsTighter(a, AddOp, b, MulOp, c);
    assert AddOp in CHAIN[4] && MulOp in CHAIN[5];
    assert ThreeOperands(a, AddOp, b, MulOp, c)
        == [Number(Int(2)), Op(AddOp), Number(Int(3)), Op(MulOp), Number(Int(4))];
    assert Denote(d, env, Bin(MulOp, b, c)) == Some(Int(12));
    assert Denote(d, env, Bin(AddOp, a, Bin(MulOp, b, c))) == Some(Int(14));
  }

  /** And (2 + 3) * 4 is 20. */
  lemma ParenthesesFirst(d: Doubles, env: Env)
    ensures var (two, three, four) := (Number(Int(2)), Number(Int(3)), Number(Int(4)));
      Meaning(d, env, [Open, two, Op(AddOp), three, Close, Op(MulOp), four]) == Some(Int(20))
  {
    var c := Lit(Int(4));
    var sum := Bin(AddOp, Lit(Int(2)), Lit(Int(3)));
    OneOperator(sum, MulOp, c, [], 0);
    assert Bare(sum) == [Number(Int(2)), Op(AddOp), Number(Int(3))];
    assert Operand(sum) == [Open, Number(Int(2)), Op(AddOp), Number(Int(3)), Close];
    assert Operand(sum) + ([Op(MulOp)] + (Operand(c) + []))
        == [Open, Number(Int(2)), Op(AddOp), Number(Int(3)), Close, Op(MulOp), Number(Int(4))];
    assert Denote(d, env, sum) == Some(Int(5));
    assert Denote(d, env, Bin(MulOp, sum, c)) == Some(Int(20));
  }
}
