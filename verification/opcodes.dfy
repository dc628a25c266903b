/** The numbers the files give to the opcodes: their positions in the enumeration, which only grows at
    its end. */
module Opcodes {
  import opened Cpu

  const OPCODES := 87

  function OpNumber(op: Op): (n: nat)
    ensures n < OPCODES
  {
    match op
    case LI => 0 case MOV => 1 case ADD => 2 case SUB => 3
    case MUL => 4 case ADDI => 5 case SLLI => 6 case SRLI => 7
    case AND => 8 case OR => 9 case XOR => 10 case DIV => 11
    case REM => 12 case FLI => 13 case FLW => 14 case FSW => 15
    case FADD => 16 case FMUL => 17 case FMACC => 18 case FMOV => 19
    case FMIN => 20 case FMAX => 21 case FSUB => 22 case FDIV => 23
    case FNEG => 24 case FSQRT => 25 case LW => 26 case SW => 27
    case SETVL => 28 case BEQ => 29 case BNE => 30 case BLT => 31
    case J => 32 case JAL => 33 case JALR => 34 case STI => 35
    case CLI => 36 case RETI => 37 case SETHANDLER => 38 case SETTIMER => 39
    case MFPSW => 40 case MTPSW => 41 case MFEPC => 42 case MTEPC => 43
    case HALT => 44 case VLOAD => 45 case VLOADS => 46 case VSTORE => 47
    case VLOADX => 48 case VSTOREX => 49 case VADD => 50 case VSUB => 51
    case VMUL => 52 case VMACC => 53 case VSCALE => 54 case VREDSUM => 55
    case VREDMAX => 56 case VREDMIN => 57 case VSPLAT => 58 case VADDS => 59
    case VMIN => 60 case VMAX => 61 case VMSLT => 62 case VMSGT => 63
    case VMSEQ => 64 case VMERGE => 65 case VADDM => 66 case VSUBM => 67
    case VMULM => 68 case VSTOREM => 69 case DUMPS => 70 case DUMPF => 71
    case DUMPV => 72 case DUMPM => 73 case DUMPMASK => 74 case MFEPSW => 75
    case MTEPSW => 76 case MFVL => 77 case MTVL => 78 case MFVMASK => 79
    case MTVMASK => 80 case MARK => 81 case MFCAUSE => 82 case VCVT => 83
    case SRAI => 84 case LD => 85 case SD => 86
  }

  /** The operations in the order of their numbers. */
  function Numbered(n: nat): Op
    requires n < OPCODES
  {
    if n < 8 then
      (if n == 0 then LI else if n == 1 then MOV else if n == 2 then ADD else if n == 3 then SUB
       else if n == 4 then MUL else if n == 5 then ADDI else if n == 6 then SLLI else SRLI)
    else if n < 16 then
      (if n == 8 then AND else if n == 9 then OR else if n == 10 then XOR else if n == 11 then DIV
       else if n == 12 then REM else if n == 13 then FLI else if n == 14 then FLW else FSW)
    else if n < 24 then
      (if n == 16 then FADD else if n == 17 then FMUL else if n == 18 then FMACC else if n == 19 then FMOV
       else if n == 20 then FMIN else if n == 21 then FMAX else if n == 22 then FSUB else FDIV)
    else if n < 32 then
      (if n == 24 then FNEG else if n == 25 then FSQRT else if n == 26 then LW else if n == 27 then SW
       else if n == 28 then SETVL else if n == 29 then BEQ else if n == 30 then BNE else BLT)
    else if n < 40 then
      (if n == 32 then J else if n == 33 then JAL else if n == 34 then JALR else if n == 35 then STI
       else if n == 36 then CLI else if n == 37 then RETI else if n == 38 then SETHANDLER else SETTIMER)
    else if n < 48 then
      (if n == 40 then MFPSW else if n == 41 then MTPSW else if n == 42 then MFEPC else if n == 43 then MTEPC
       else if n == 44 then HALT else if n == 45 then VLOAD else if n == 46 then VLOADS else VSTORE)
    else if n < 56 then
      (if n == 48 then VLOADX else if n == 49 then VSTOREX else if n == 50 then VADD else if n == 51 then VSUB
       else if n == 52 then VMUL else if n == 53 then VMACC else if n == 54 then VSCALE else VREDSUM)
    else if n < 64 then
      (if n == 56 then VREDMAX else if n == 57 then VREDMIN else if n == 58 then VSPLAT else if n == 59 then VADDS
       else if n == 60 then VMIN else if n == 61 then VMAX else if n == 62 then VMSLT else VMSGT)
    else if n < 72 then
      (if n == 64 then VMSEQ else if n == 65 then VMERGE else if n == 66 then VADDM else if n == 67 then VSUBM
       else if n == 68 then VMULM else if n == 69 then VSTOREM else if n == 70 then DUMPS else DUMPF)
    else if n < 80 then
      (if n == 72 then DUMPV else if n == 73 then DUMPM else if n == 74 then DUMPMASK else if n == 75 then MFEPSW
       else if n == 76 then MTEPSW else if n == 77 then MFVL else if n == 78 then MTVL else MFVMASK)
    else if n == 80 then MTVMASK else if n == 81 then MARK else if n == 82 then MFCAUSE
      else if n == 83 then VCVT else if n == 84 then SRAI else if n == 85 then LD else SD
  }

  lemma ReadBackTo12(op: Op)
    requires 0 <= OpNumber(op) < 12
    ensures Numbered(OpNumber(op)) == op
  {
  }

  lemma ReadBackTo24(op: Op)
    requires 12 <= OpNumber(op) < 24
    ensures Numbered(OpNumber(op)) == op
  {
  }

  lemma ReadBackTo36(op: Op)
    requires 24 <= OpNumber(op) < 36
    ensures Numbered(OpNumber(op)) == op
  {
  }

  lemma ReadBackTo52(op: Op)
    requires 36 <= OpNumber(op) < 52
    ensures Numbered(OpNumber(op)) == op
  {
  }

  lemma ReadBackTo70(op: Op)
    requires 52 <= OpNumber(op) < 70
    ensures Numbered(OpNumber(op)) == op
  {
  }

  lemma ReadBackTo87(op: Op)
    requires 70 <= OpNumber(op) < 87
    ensures Numbered(OpNumber(op)) == op
  {
  }

  /** Every operation has a number of its own. */
  lemma OpNumberReadBack(op: Op)
    ensures Numbered(OpNumber(op)) == op
  {
    var n := OpNumber(op);
    if n < 12 {
      ReadBackTo12(op);
    } else if n < 24 {
      ReadBackTo24(op);
    } else if n < 36 {
      ReadBackTo36(op);
    } else if n < 52 {
      ReadBackTo52(op);
    } else if n < 70 {
      ReadBackTo70(op);
    } else {
      ReadBackTo87(op);
    }
  }
}
