/** Two CPUs incrementing one shared word under a hardware spinlock, instruction by instruction and
    in every interleaving the board could choose. */
module Spinlock {
  import opened Words
  import opened Cpu
  import opened Memory
  import opened HwLock

  /** Where each CPU's loop starts, how often it goes round, and the two addresses it was given. */
  datatype Setup = Setup(base: seq<nat>, rounds: seq<nat>, lock: int, counter: int)

  predicate Sound(p: Setup) {
    && |p.base| == 2 && |p.rounds| == 2
    && (forall i | 0 <= i < 2 :: p.base[i] + LENGTH < 0x8000_0000 && 1 <= p.rounds[i] < 0x8000_0000)
    && IsLock(p.lock) && RamPlace(p.counter, 4).Shared?
  }

  const LENGTH := 8

  function Of(op: Op, a: int, b: int, c: int, imm: int, target: int32): Instr {
    Instr(op, a, b, c, imm, 0, target)
  }

  /** Acquire by reading 0, read, add one, write, release by writing 0, and round again. */
  function Code(base: nat, k: nat): (ins: Instr)
    requires k < LENGTH && base < 0x8000_0000
    ensures Encoded(ins)
  {
    if k == 0 then Of(LW, 9, 7, 0, 0, 0)
    else if k == 1 then Of(BNE, 0, 9, 0, 0, base)
    else if k == 2 then Of(LW, 10, 8, 0, 0, 0)
    else if k == 3 then Of(ADDI, 10, 10, 0, 1, 0)
    else if k == 4 then Of(SW, 10, 8, 0, 0, 0)
    else if k == 5 then Of(SW, 0, 7, 0, 0, 0)
    else if k == 6 then Of(ADDI, 6, 6, 0, -1, 0)
    else Of(BNE, 0, 6, 0, 0, base)
  }

  // --- one instruction of one CPU ------------------------------------------------------------

  /** The two CPUs with what they share: the lock block and the shared RAM. */
  datatype Board = Board(cpu: seq<State>, owner: Owners, ram: Ram)

  predicate Whole(b: Board) { |b.cpu| == 2 && Sized(b.ram) }

  /** A core: the state after an instruction that read `word` from the bus. */
  type Core = (State, int32, Instr) -> State

  function Answer(word: int32): Bus { Bus(word, 0, i => 0, true) }

  function Run(fpu: Fpu, s: State, word: int32, ins: Instr): State {
    if Encoded(ins) then Step(s, fpu, Answer(word), ins) else s
  }

  /** The core of this board, over any floating-point unit. */
  function TheCore(fpu: Fpu): Core { (s: State, word: int32, ins: Instr) => Run(fpu, s, word, ins) }

  /** What a `lw` reads, the lock register or a word of RAM, and the lock block after it. */
  function Read(b: Board, id: nat, addr: int): (Owners, int32)
    requires Sized(b.ram)
  {
    if IsLock(addr) then Probe(b.owner, id, Index(addr))
    else (b.owner, if IsMmio(addr) then 0 else Load32(b.ram, addr))
  }

  function Written(b: Board, id: nat, addr: int, value: int32): (c: Board)
    requires Sized(b.ram)
    ensures c.cpu == b.cpu && Sized(c.ram)
  {
    if IsLock(addr) then b.(owner := Release(b.owner, id, Index(addr), value))
    else if IsMmio(addr) then b
    else b.(ram := Store32(b.ram, addr, value))
  }

  /** One instruction of CPU `id`, if it is in its loop. Interrupts are closed there. */
  function Move(p: Setup, core: Core, b: Board, id: nat): (c: Board)
    requires Sound(p) && Whole(b)
    ensures Whole(c)
  {
    if id >= 2 || !(p.base[id] <= b.cpu[id].pc < p.base[id] + LENGTH) then b
    else
      var s := b.cpu[id];
      var ins := Code(p.base[id], s.pc - p.base[id]);
      var addr := Wrap64(R(s, ins.b) + ins.imm);
      if ins.op == LW then
        var (owner, word) := Read(b, id, addr);
        b.(cpu := b.cpu[id := core(s, word, ins)], owner := owner)
      else if ins.op == SW then
        Written(b, id, addr, Wrap32(s.r[ins.a])).(cpu := b.cpu[id := core(s, 0, ins)])
      else
        b.(cpu := b.cpu[id := core(s, 0, ins)])
  }

  function Interleaved(p: Setup, core: Core, b: Board, order: seq<nat>): (c: Board)
    requires Sound(p) && Whole(b)
    ensures Whole(c)
    decreases |order|
  {
    if order == [] then b else Interleaved(p, core, Move(p, core, b, order[0]), order[1..])
  }

  // --- the same as an algorithm on two loops, a lock and a word -------------------------------

  /** The place in the loop and the registers r6, r9 and r10. */
  datatype Loop = Loop(at: int, left: int, flag: int, seen: int)
  datatype Algorithm = Algorithm(loops: seq<Loop>, owner: nat, word: int32)

  function LoopOf(p: Setup, b: Board, id: nat): Loop
    requires Sound(p) && Whole(b) && id < 2
  {
    Loop(b.cpu[id].pc - p.base[id], b.cpu[id].r[6], b.cpu[id].r[9], b.cpu[id].r[10])
  }

  function Word(p: Setup, b: Board): int32
    requires Sound(p) && Whole(b)
  {
    Load32(b.ram, p.counter)
  }

  function View(p: Setup, b: Board): Algorithm
    requires Sound(p) && Whole(b)
  {
    Algorithm([LoopOf(p, b, 0), LoopOf(p, b, 1)], b.owner[Index(p.lock)], Word(p, b))
  }

  /** The registers the loop reads and never writes. */
  predicate Pointers(p: Setup, b: Board)
    requires Sound(p) && Whole(b)
  {
    forall id | 0 <= id < 2 ::
      b.cpu[id].r[0] == 0 && b.cpu[id].r[7] == p.lock && b.cpu[id].r[8] == p.counter
  }

  function NextLoop(l: Loop, owner: nat, word: int32): Loop {
    var n := l.(at := l.at + 1);
    if l.at == 0 then n.(flag := if owner == 0 then 0 else 1)
    else if l.at == 1 then if l.flag != 0 then l.(at := 0) else n
    else if l.at == 2 then n.(seen := word)
    else if l.at == 3 then n.(seen := Wrap64(l.seen + 1))
    else if l.at == 6 then n.(left := Wrap64(l.left - 1))
    else if l.at == 7 then if l.left != 0 then l.(at := 0) else n
    else n
  }

  function NextOwner(l: Loop, id: nat, owner: nat): nat {
    if l.at == 0 && owner == 0 then id + 1
    else if l.at == 5 && owner == id + 1 then 0
    else owner
  }

  function NextWord(l: Loop, word: int32): int32 { if l.at == 4 then Wrap32(l.seen) else word }

  function Turn(a: Algorithm, id: nat): Algorithm
    requires |a.loops| == 2
  {
    if id >= 2 || !(0 <= a.loops[id].at < LENGTH) then a
    else
      var l := a.loops[id];
      Algorithm(a.loops[id := NextLoop(l, a.owner, a.word)], NextOwner(l, id, a.owner), NextWord(l, a.word))
  }

  // --- the core runs the algorithm ------------------------------------------------------------

  /** What the loop needs of a core: the four instructions it is made of. */
  ghost predicate Faithful(core: Core) {
    forall s: State, word: int32, ins: Instr | Encoded(ins) && s.pc < 0x8000_0000 :: Does(core, s, word, ins)
  }

  predicate Does(core: Core, s: State, word: int32, ins: Instr)
    requires Encoded(ins) && s.pc < 0x8000_0000
  {
    var t := core(s, word, ins);
    && (ins.op == LW && ins.a != 0 ==> t.pc == s.pc + 1 && t.r == s.r[ins.a := word])
    && (ins.op == ADDI && ins.a != 0 ==> t.pc == s.pc + 1 && t.r == s.r[ins.a := Wrap64(R(s, ins.b) + ins.imm)])
    && (ins.op == SW ==> t.pc == s.pc + 1 && t.r == s.r)
    && (ins.op == BNE ==> t.pc == (if s.r[ins.b] != s.r[ins.c] then ins.target else s.pc + 1) && t.r == s.r)
  }

  lemma LoadRuns(fpu: Fpu, s: State, word: int32, ins: Instr)
    requires ins.op == LW && Encoded(ins) && s.pc < 0x8000_0000
    ensures var t := Run(fpu, s, word, ins);
      ins.a != 0 ==> t.pc == s.pc + 1 && t.r == s.r[ins.a := word]
  {
    assert Dirties(LW) == NoDirt;
  }

  lemma AddRuns(fpu: Fpu, s: State, word: int32, ins: Instr)
    requires ins.op == ADDI && Encoded(ins) && s.pc < 0x8000_0000
    ensures var t := Run(fpu, s, word, ins);
      ins.a != 0 ==> t.pc == s.pc + 1 && t.r == s.r[ins.a := Wrap64(R(s, ins.b) + ins.imm)]
  {
    var c := Fetched(s, ins);
    AddComputes(c, fpu, Answer(word), ins);
    assert c.r == s.r && c.pc == s.pc + 1;
  }

  lemma AddComputes(c: State, fpu: Fpu, bus: Bus, ins: Instr)
    requires ins.op == ADDI && Encoded(ins)
    ensures Exec(c, fpu, bus, ins) == SetR(c, ins.a, Wrap64(R(c, ins.b) + ins.imm))
  {
    assert Exec(c, fpu, bus, ins) == ExecInteger(c, bus, ins);
  }

  lemma StoreRuns(fpu: Fpu, s: State, word: int32, ins: Instr)
    requires ins.op == SW && Encoded(ins) && s.pc < 0x8000_0000
    ensures var t := Run(fpu, s, word, ins); t.pc == s.pc + 1 && t.r == s.r
  {
    assert Dirties(SW) == NoDirt;
  }

  lemma BranchRuns(fpu: Fpu, s: State, word: int32, ins: Instr)
    requires ins.op == BNE && Encoded(ins) && s.pc < 0x8000_0000
    ensures var t := Run(fpu, s, word, ins);
      t.pc == (if s.r[ins.b] != s.r[ins.c] then ins.target else s.pc + 1) && t.r == s.r
  {
    assert Dirties(BNE) == NoDirt;
  }

  lemma TheCoreIsFaithful(fpu: Fpu)
    ensures Faithful(TheCore(fpu))
  {
    forall s: State, word: int32, ins: Instr | Encoded(ins) && s.pc < 0x8000_0000
      ensures Does(TheCore(fpu), s, word, ins)
    {
      if ins.op == LW {
        LoadRuns(fpu, s, word, ins);
      } else if ins.op == ADDI {
        AddRuns(fpu, s, word, ins);
      } else if ins.op == SW {
        StoreRuns(fpu, s, word, ins);
      } else if ins.op == BNE {
        BranchRuns(fpu, s, word, ins);
      }
    }
  }

  /** What the bus answers to the instruction at `l.at`. */
  function Answered(l: Loop, owner: nat, word: int32): int32 {
    if l.at == 0 then if owner == 0 then 0 else 1 else if l.at == 2 then word else 0
  }

  /** CPU `id` has executed one instruction and the other has not moved. */
  predicate Moved(p: Setup, core: Core, b: Board, c: Board, id: nat)
    requires Sound(p) && Whole(b) && Whole(c) && id < 2 && 0 <= LoopOf(p, b, id).at < LENGTH
  {
    var l := LoopOf(p, b, id);
    c.cpu == b.cpu[id := core(b.cpu[id], Answered(l, b.owner[Index(p.lock)], Word(p, b)), Code(p.base[id], l.at))]
  }

  /** The bus side of a move: what was read, and the lock and the word after it. */
  predicate Accessed(p: Setup, core: Core, b: Board, c: Board, id: nat)
    requires Sound(p) && Whole(b) && Whole(c) && id < 2 && 0 <= LoopOf(p, b, id).at < LENGTH
  {
    var (l, owner) := (LoopOf(p, b, id), b.owner[Index(p.lock)]);
    && Moved(p, core, b, c, id)
    && c.owner[Index(p.lock)] == NextOwner(l, id, owner) && Word(p, c) == NextWord(l, Word(p, b))
  }

  lemma LoadAccesses(p: Setup, core: Core, b: Board, id: nat)
    requires Sound(p) && Whole(b) && id < 2 && Pointers(p, b) && LoopOf(p, b, id).at in {0, 2}
    ensures Accessed(p, core, b, Move(p, core, b, id), id)
  {
  }

  lemma StoreAccesses(p: Setup, core: Core, b: Board, id: nat)
    requires Sound(p) && Whole(b) && id < 2 && Pointers(p, b) && LoopOf(p, b, id).at == 4
    ensures Accessed(p, core, b, Move(p, core, b, id), id)
  {
    Memory.Word(b.ram, p.counter, Wrap32(b.cpu[id].r[10]));
  }

  lemma UnlockAccesses(p: Setup, core: Core, b: Board, id: nat)
    requires Sound(p) && Whole(b) && id < 2 && Pointers(p, b) && LoopOf(p, b, id).at == 5
    ensures Accessed(p, core, b, Move(p, core, b, id), id)
  {
  }

  lemma OthersAccess(p: Setup, core: Core, b: Board, id: nat)
    requires Sound(p) && Whole(b) && id < 2 && Pointers(p, b) && LoopOf(p, b, id).at in {1, 3, 6, 7}
    ensures Accessed(p, core, b, Move(p, core, b, id), id)
  {
    var at := LoopOf(p, b, id).at;
    assert Code(p.base[id], at).op == if at in {1, 7} then BNE else ADDI;
  }

  /** The register side. */
  lemma Computes(p: Setup, core: Core, b: Board, c: Board, id: nat)
    requires Sound(p) && Whole(b) && Whole(c) && id < 2 && Pointers(p, b) && Faithful(core)
    requires 0 <= LoopOf(p, b, id).at < LENGTH && Moved(p, core, b, c, id)
    ensures Pointers(p, c) && LoopOf(p, c, id) == NextLoop(LoopOf(p, b, id), b.owner[Index(p.lock)], Word(p, b))
    ensures LoopOf(p, c, 1 - id) == LoopOf(p, b, 1 - id)
  {
    var l := LoopOf(p, b, id);
    assert Does(core, b.cpu[id], Answered(l, b.owner[Index(p.lock)], Word(p, b)), Code(p.base[id], l.at));
  }

  lemma Refines(p: Setup, core: Core, b: Board, c: Board, id: nat)
    requires Sound(p) && Whole(b) && Whole(c) && Pointers(p, b) && Faithful(core)
    requires id < 2 && 0 <= LoopOf(p, b, id).at < LENGTH && Accessed(p, core, b, c, id)
    ensures Pointers(p, c) && View(p, c) == Turn(View(p, b), id)
  {
    Computes(p, core, b, c, id);
    assert View(p, c).loops == View(p, b).loops[id := LoopOf(p, c, id)];
  }

  lemma MoveRefines(p: Setup, core: Core, b: Board, id: nat)
    requires Sound(p) && Whole(b) && Pointers(p, b) && Faithful(core)
    ensures var c := Move(p, core, b, id); Pointers(p, c) && View(p, c) == Turn(View(p, b), id)
  {
    if id < 2 && 0 <= LoopOf(p, b, id).at < LENGTH {
      var at := LoopOf(p, b, id).at;
      if at in {0, 2} {
        LoadAccesses(p, core, b, id);
      } else if at == 4 {
        StoreAccesses(p, core, b, id);
      } else if at == 5 {
        UnlockAccesses(p, core, b, id);
      } else {
        OthersAccess(p, core, b, id);
      }
      Refines(p, core, b, Move(p, core, b, id), id);
    }
  }

  // --- the invariant --------------------------------------------------------------------------

  /** Between the read that returned 0 and the write that releases. */
  predicate Inside(l: Loop) { (l.at == 1 && l.flag == 0) || 2 <= l.at <= 5 }

  /** The increments written so far. */
  function Increments(rounds: nat, l: Loop): int { rounds - l.left + (if 5 <= l.at <= 6 then 1 else 0) }

  predicate LoopInv(rounds: nat, l: Loop, id: nat, owner: nat, word: int32) {
    && 0 <= l.at <= LENGTH && 0 <= l.left <= rounds < 0x8000_0000
    && (owner == id + 1 <==> Inside(l))
    && (l.at == 3 ==> l.seen == word)
    && (l.at == 4 ==> l.seen == word as int + 1)
    && (l.at <= 6 ==> l.left > 0) && (l.at == LENGTH ==> l.left == 0)
  }

  /** `start` is the counter's value before either CPU began. */
  predicate Inv(p: Setup, start: int, a: Algorithm)
    requires Sound(p)
  {
    && |a.loops| == 2 && a.owner <= 2
    && LoopInv(p.rounds[0], a.loops[0], 0, a.owner, a.word)
    && LoopInv(p.rounds[1], a.loops[1], 1, a.owner, a.word)
    && a.word == Wrap32(start + Increments(p.rounds[0], a.loops[0]) + Increments(p.rounds[1], a.loops[1]))
  }

  lemma Periodic(x: int, k: int)
    ensures Wrap32(x - TWO32 * k) == Wrap32(x)
  {
    assert (x + 0x8000_0000 - TWO32 * k) % TWO32 == (x + 0x8000_0000) % TWO32;
  }

  lemma AddOne(x: int)
    ensures Wrap32(Wrap32(x) as int + 1) == Wrap32(x + 1)
  {
    Periodic(x + 1, (x - Wrap32(x)) / TWO32);
  }

  /** One CPU's step keeps what is known of it. */
  lemma OwnStep(rounds: nat, l: Loop, id: nat, owner: nat, word: int32)
    requires id < 2 && owner <= 2 && l.at < LENGTH && LoopInv(rounds, l, id, owner, word)
    ensures LoopInv(rounds, NextLoop(l, owner, word), id, NextOwner(l, id, owner), NextWord(l, word))
    ensures Increments(rounds, NextLoop(l, owner, word)) == Increments(rounds, l) + (if l.at == 4 then 1 else 0)
    ensures NextWord(l, word) == if l.at == 4 then Wrap32(word as int + 1) else word
  {
  }

  /** And what is known of the other: a CPU that writes or changes the owner is the only one inside. */
  lemma OtherStep(rounds: nat, l: Loop, id: nat, owner: nat, word: int32, rounds': nat, other: Loop)
    requires id < 2 && owner <= 2 && l.at < LENGTH
    requires LoopInv(rounds, l, id, owner, word) && LoopInv(rounds', other, 1 - id, owner, word)
    ensures LoopInv(rounds', other, 1 - id, NextOwner(l, id, owner), NextWord(l, word))
  {
  }

  lemma TurnKeeps(p: Setup, start: int, a: Algorithm, id: nat)
    requires Sound(p) && Inv(p, start, a)
    ensures Inv(p, start, Turn(a, id))
  {
    if id < 2 && a.loops[id].at < LENGTH {
      OwnStep(p.rounds[id], a.loops[id], id, a.owner, a.word);
      OtherStep(p.rounds[id], a.loops[id], id, a.owner, a.word, p.rounds[1 - id], a.loops[1 - id]);
      AddOne(start + Increments(p.rounds[0], a.loops[0]) + Increments(p.rounds[1], a.loops[1]));
    }
  }

  predicate Ready(p: Setup, start: int32, b: Board)
    requires Sound(p)
  {
    && Whole(b) && Pointers(p, b) && b.owner[Index(p.lock)] == 0 && Word(p, b) == start
    && forall id | 0 <= id < 2 :: b.cpu[id].pc == p.base[id] && b.cpu[id].r[6] == p.rounds[id]
  }

  lemma ReadyIsInv(p: Setup, start: int32, b: Board)
    requires Sound(p) && Ready(p, start, b)
    ensures Inv(p, start, View(p, b))
  {
  }

  lemma {:induction false} OrderKeeps(p: Setup, core: Core, start: int, b: Board, order: seq<nat>)
    requires Sound(p) && Whole(b) && Pointers(p, b) && Inv(p, start, View(p, b)) && Faithful(core)
    ensures Inv(p, start, View(p, Interleaved(p, core, b, order)))
    decreases |order|
  {
    if order != [] {
      MoveRefines(p, core, b, order[0]);
      TurnKeeps(p, start, View(p, b), order[0]);
      OrderKeeps(p, core, start, Move(p, core, b, order[0]), order[1..]);
    }
  }

  lemma InvMeans(p: Setup, start: int32, a: Algorithm)
    requires Sound(p) && Inv(p, start, a)
    ensures !(Inside(a.loops[0]) && Inside(a.loops[1]))
    ensures forall id | 0 <= id < 2 :: Inside(a.loops[id]) <==> a.owner == id + 1
    ensures a.loops[0].at == LENGTH && a.loops[1].at == LENGTH ==>
      a.word == Wrap32(start as int + p.rounds[0] + p.rounds[1]) && a.owner == 0
  {
  }

  /** However the two loops interleave, at most one CPU is inside, it is the lock's owner, and when
      both have finished the counter has grown by exactly the sum of their rounds. */
  lemma NoLostIncrement(p: Setup, fpu: Fpu, start: int32, b: Board, order: seq<nat>)
    requires Sound(p) && Ready(p, start, b)
    ensures var c := Interleaved(p, TheCore(fpu), b, order);
      && !(Inside(View(p, c).loops[0]) && Inside(View(p, c).loops[1]))
      && (forall id | 0 <= id < 2 :: Inside(View(p, c).loops[id]) <==> c.owner[Index(p.lock)] == id + 1)
      && (View(p, c).loops[0].at == LENGTH && View(p, c).loops[1].at == LENGTH ==>
            Word(p, c) == Wrap32(start as int + p.rounds[0] + p.rounds[1]) && c.owner[Index(p.lock)] == 0)
  {
    TheCoreIsFaithful(fpu);
    ReadyIsInv(p, start, b);
    OrderKeeps(p, TheCore(fpu), start, b, order);
    InvMeans(p, start, View(p, Interleaved(p, TheCore(fpu), b, order)));
  }
}
