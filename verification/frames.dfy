/** The lines a `.proc` becomes, one by one. */
module FrameListing {
  import opened Cpu
  import opened ProcFrame

  /** How many registers the scan marked below `r`. */
  function Below(flags: Flags, r: nat): nat
    requires r <= 14
    decreases r
  {
    if r <= 1 then 0 else Below(flags, r - 1) + if flags[r - 1] then 1 else 0
  }

  /** A marked register stands behind those marked below it. */
  lemma {:induction false} PlaceOfUsed(flags: Flags, s: nat, r: nat)
    requires 1 <= s <= r < 14 && flags[r]
    ensures Below(flags, s) <= Below(flags, r)
    ensures var n := Below(flags, r) - Below(flags, s); n < |UsedFrom(flags, s)| && UsedFrom(flags, s)[n] == r
    decreases r - s
  {
    if s < r {
      PlaceOfUsed(flags, s + 1, r);
      assert Below(flags, s + 1) == Below(flags, s) + if flags[s] then 1 else 0;
    }
  }

  lemma {:induction false} UsedCount(flags: Flags, s: nat)
    requires 1 <= s <= 14
    ensures Below(flags, s) + |UsedFrom(flags, s)| == Below(flags, 14)
    decreases 14 - s
  {
    if s < 14 {
      UsedCount(flags, s + 1);
      assert Below(flags, s + 1) == Below(flags, s) + if flags[s] then 1 else 0;
    }
  }

  /** The k-th register saved: the 2k-th line makes room and the next stores it. */
  lemma {:induction false} SavedAt(regs: seq<int>, k: nat)
    requires k < |regs|
    ensures |Save(regs)| == 2 * |regs|
    ensures Save(regs)[2 * k] == Instr(ADDI, 14, 14, 0, -8, 0, 0)
    ensures Save(regs)[2 * k + 1] == Instr(SD, regs[k], 14, 0, 0, 0, 0)
    decreases |regs|
  {
    FrameLength(regs);
    if k > 0 {
      SavedAt(regs[1..], k - 1);
      assert Save(regs)[2 * k] == Save(regs[1..])[2 * (k - 1)];
      assert Save(regs)[2 * k + 1] == Save(regs[1..])[2 * (k - 1) + 1];
    }
  }

  /** It is given back by the lines that are as far from the end. */
  lemma {:induction false} RestoredAt(regs: seq<int>, k: nat)
    requires k < |regs|
    ensures |Restore(regs)| == 2 * |regs|
    ensures Restore(regs)[2 * (|regs| - 1 - k)] == Instr(LD, regs[k], 14, 0, 0, 0, 0)
    ensures Restore(regs)[2 * (|regs| - 1 - k) + 1] == Instr(ADDI, 14, 14, 0, 8, 0, 0)
    decreases |regs|
  {
    FrameLength(regs);
    FrameLength(regs[1..]);
    if k > 0 {
      RestoredAt(regs[1..], k - 1);
      var at := 2 * (|regs| - 1 - k);
      assert Restore(regs)[at] == Restore(regs[1..])[at] && Restore(regs)[at + 1] == Restore(regs[1..])[at + 1];
    }
  }

  lemma LengthOfCode(flags: Flags, body: seq<Line>)
    ensures |Saved(flags)| == Below(flags, 14) + 1
    ensures |ProcCode(flags, body)| == 4 * Below(flags, 14) + |body| + 5
  {
    UsedCount(flags, 1);
    FrameLength(Saved(flags));
  }

  /** The body stands behind the pushes, as written, and the return at the end. */
  lemma BodyIsListed(flags: Flags, body: seq<Line>)
    ensures |ProcCode(flags, body)| == 4 * Below(flags, 14) + |body| + 5
    ensures forall i | 0 <= i < |body| :: ProcCode(flags, body)[2 * Below(flags, 14) + 2 + i] == body[i].ins
    ensures ProcCode(flags, body)[|ProcCode(flags, body)| - 1] == Instr(JALR, 0, 15, 0, 0, 0, 0)
  {
    LengthOfCode(flags, body);
    FrameLength(Saved(flags));
  }

  /** The k-th register saved, in the whole code. */
  lemma SavedInCode(flags: Flags, body: seq<Line>, k: nat, at: nat, to: nat)
    requires k < |Saved(flags)| && at == 2 * k && to == 4 * Below(flags, 14) + |body| + 5 - 3 - 2 * k
    ensures |ProcCode(flags, body)| == 4 * Below(flags, 14) + |body| + 5 && at + 1 < to < |ProcCode(flags, body)| - 1
    ensures ProcCode(flags, body)[at] == Instr(ADDI, 14, 14, 0, -8, 0, 0)
    ensures ProcCode(flags, body)[at + 1] == Instr(SD, Saved(flags)[k], 14, 0, 0, 0, 0)
    ensures ProcCode(flags, body)[to] == Instr(LD, Saved(flags)[k], 14, 0, 0, 0, 0)
    ensures ProcCode(flags, body)[to + 1] == Instr(ADDI, 14, 14, 0, 8, 0, 0)
  {
    LengthOfCode(flags, body);
    SavedAt(Saved(flags), k);
    RestoredAt(Saved(flags), k);
  }

  /** The return address goes first and comes back last, just before the return. */
  lemma ReturnIsListed(flags: Flags, body: seq<Line>)
    ensures var code := ProcCode(flags, body);
      && |code| >= 5
      && code[..2] == [Instr(ADDI, 14, 14, 0, -8, 0, 0), Instr(SD, 15, 14, 0, 0, 0, 0)]
      && code[|code| - 3..] ==
           [Instr(LD, 15, 14, 0, 0, 0, 0), Instr(ADDI, 14, 14, 0, 8, 0, 0), Instr(JALR, 0, 15, 0, 0, 0, 0)]
  {
    BodyIsListed(flags, body);
    SavedInCode(flags, body, 0, 0, |ProcCode(flags, body)| - 3);
  }

  /** A marked register goes after those marked below it and comes back before them. */
  lemma ProcIsListed(flags: Flags, body: seq<Line>, r: nat, n: nat)
    requires 1 <= r < 14 && flags[r] && n == Below(flags, r)
    ensures var code := ProcCode(flags, body);
      && 0 < 2 * n + 3 < |code| - 2 * n - 5
      && code[2 * n + 2] == Instr(ADDI, 14, 14, 0, -8, 0, 0) && code[2 * n + 3] == Instr(SD, r, 14, 0, 0, 0, 0)
      && code[|code| - 2 * n - 5] == Instr(LD, r, 14, 0, 0, 0, 0)
      && code[|code| - 2 * n - 4] == Instr(ADDI, 14, 14, 0, 8, 0, 0)
  {
    PlaceOfUsed(flags, 1, r);
    LengthOfCode(flags, body);
    SavedInCode(flags, body, n + 1, 2 * n + 2, 4 * Below(flags, 14) + |body| + 5 - 3 - 2 * (n + 1));
  }
}
