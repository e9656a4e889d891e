/**
 * decode_exec: one instruction of the LoongArch32r emulator. The word has
 * already been fetched into `s->isa.inst.val` and `s->snpc` already points
 * past it. decode_exec sets `s->dnpc` to `s->snpc`, runs the body of the
 * first table entry that accepts the word, clears R(0) and returns 0.
 *
 * The arithmetic is the C arithmetic of the source: `word_t` is a 32-bit
 * unsigned type, so every comparison is unsigned, `>>` is a logical shift,
 * and results wrap at 2^32. SEXT(x, 32) leaves a 32-bit value as it is.
 *
 * The bodies are described column by column (register write, memory
 * write, s->pc, s->dnpc, outcome) by functions of the body's operands; the
 * Next... functions apply them to the entry decode_exec selects for a word
 * and the operands decode_operand produces for it.
 */
module Exec {
  import opened Bits
  import opened Operand
  import opened Decoder
  import opened Memory
  import opened CpuState

  /**
   * What running the instruction did to the emulator as a whole. NEMUTRAP
   * and INV stop the emulator with these values; every other body
   * continues normally.
   */
  datatype Outcome = Normal | Trap(pc: bv32, code: bv32) | Invalid(pc: bv32)

  /**
   * The bodies whose C is undefined behaviour on some operands do not
   * fall under this model there: a division or remainder by zero, and a
   * shift of a 32-bit value by 32 or more. For SLLI.W, SRLI.W and SRAI.W
   * the shift amount is `(uint8_t)imm`, which is at least 240 once uimm5
   * sign-extends a field of 16 or more.
   */
  predicate DefinedOp(op: Op, src2: bv32, imm: bv32) {
    && ((op.DivW? || op.ModW? || op.DivWu? || op.ModWu?) ==> src2 != 0)
    && ((op.SllW? || op.SrlW? || op.SraW?) ==> src2 < 32)
    && ((op.SlliW? || op.SrliW? || op.SraiW?) ==> imm & 0xFF < 32)
  }

  /** The bodies of the form `R(rd) = <expression>`, which always write R(rd). */
  predicate Computes(op: Op) {
    || op.PcAddu12i? || op.Lu12iW? || op.Or? || op.AddiW?
    || op.LdW? || op.LdH? || op.LdB? || op.LdBu? || op.LdHu?
    || op.AddW? || op.SubW? || op.DivW? || op.ModW? || op.DivWu? || op.ModWu?
    || op.Andi? || op.Ori? || op.Xori? || op.MulW? || op.MulhW? || op.MulhWu?
    || op.SllW? || op.SrlW? || op.SraW? || op.SlliW? || op.SrliW? || op.SraiW?
    || op.Xor? || op.And? || op.Nor? || op.Jirl?
  }

  /** The register-register bodies of the form `R(rd) = src1 <op> src2`. */
  predicate IsAlu3R(op: Op) {
    || op.AddW? || op.SubW? || op.MulW? || op.MulhW? || op.MulhWu?
    || op.DivW? || op.ModW? || op.DivWu? || op.ModWu?
    || op.SllW? || op.SrlW? || op.SraW?
    || op.Or? || op.Xor? || op.And? || op.Nor?
  }

  /** The register-immediate bodies of the form `R(rd) = src1 <op> imm`. */
  predicate IsAluImm(op: Op) {
    op.AddiW? || op.Andi? || op.Ori? || op.Xori? || op.SlliW? || op.SrliW? || op.SraiW?
  }

  /** The five loads, `R(rd) = Mr(src1 + imm, len)`. */
  predicate IsLoad(op: Op) {
    op.LdW? || op.LdH? || op.LdB? || op.LdBu? || op.LdHu?
  }

  /*
   * The three word_t operators whose circuits are costly to reason about
   * sit behind their own functions, so that only the body that uses one
   * has to look inside it.
   */

  /** `a * b` on word_t: the low 32 bits of the product. */
  function Product(a: bv32, b: bv32): bv32 {
    a * b
  }

  /** `a / b` on word_t. */
  function Quotient(a: bv32, b: bv32): bv32
    requires b != 0
  {
    a / b
  }

  /** `a % b` on word_t. */
  function Remainder(a: bv32, b: bv32): bv32
    requires b != 0
  {
    a % b
  }

  /**
   * R(rd) for the register-register bodies, in unsigned 32-bit arithmetic:
   * DIV.W and MOD.W divide unsigned like their -U twins, SRA.W shifts in
   * zeros like SRL.W, and the two MULH bodies store 0 because
   * SEXT(x, 64) << 32 keeps no bit of x once truncated to the 32-bit R(rd).
   */
  function Alu3R(op: Op, src1: bv32, src2: bv32): bv32
    requires DefinedOp(op, src2, 0)
  {
    match op
    case AddW => src1 + src2
    case SubW => src1 - src2
    case MulW => Product(src1, src2)
    case DivW | DivWu => Quotient(src1, src2)
    case ModW | ModWu => Remainder(src1, src2)
    case SllW => src1 << src2
    case SrlW | SraW => src1 >> src2
    case Or => src1 | src2
    case Xor => src1 ^ src2
    case And => src1 & src2
    case Nor => !(src1 | src2)
    case _ => 0
  }

  /**
   * R(rd) for the register-immediate bodies; the three shifts by an
   * immediate shift by `(uint8_t)imm`.
   */
  function AluImm(op: Op, src1: bv32, imm: bv32): bv32
    requires DefinedOp(op, 0, imm)
  {
    match op
    case AddiW => src1 + imm
    case Andi => src1 & imm
    case Ori => src1 | imm
    case Xori => src1 ^ imm
    case SlliW => src1 << (imm & 0xFF)
    case SrliW | SraiW => src1 >> (imm & 0xFF)
    case _ => 0
  }

  /** The width a load reads: ld.h and ld.hu read two bytes, the other three loads four. */
  function LoadWidth(op: Op): Width {
    if op.LdH? || op.LdHu? then 2 else 4
  }

  /**
   * The value the bodies of the form `R(rd) = <expression>` put in R(rd),
   * from the operands src1, src2 and imm, s->pc and memory. The loads go
   * through Mr at `src1 + imm`; SEXT(_, 32) of a 32-bit value is that
   * value; jirl links pc + 4.
   */
  function Value(op: Op, src1: bv32, src2: bv32, imm: bv32, pc: bv32, mem: Bytes): bv32
    requires Computes(op) && DefinedOp(op, src2, imm)
  {
    if IsAlu3R(op) then Alu3R(op, src1, src2)
    else if IsAluImm(op) then AluImm(op, src1, imm)
    else if IsLoad(op) then Load(mem, src1 + imm, LoadWidth(op))
    else if op.PcAddu12i? then pc + imm
    else if op.Lu12iW? then imm
    else pc + 4
  }

  /**
   * Whether the body writes a register: the bodies above always, the two
   * bl lines always (R(1)), and the comparisons only when they hold.
   */
  predicate Writes(op: Op, src1: bv32, src2: bv32, imm: bv32) {
    || Computes(op) || op.BlNext? || op.BlPc?
    || ((op.Sltui? || op.Slti?) && src1 < imm)
    || ((op.Slt? || op.Sltu?) && src1 < src2)
  }

  /** The register a body writes: R(1) for the two bl lines, R(rd) for every other. */
  function Dest(op: Op, rd: bv5): bv5 {
    if op.BlNext? || op.BlPc? then 1 else rd
  }

  /** The value a writing body puts in its register: pc + 4 for bl, 1 for a comparison that holds. */
  function Written(op: Op, src1: bv32, src2: bv32, imm: bv32, pc: bv32, mem: Bytes): bv32
    requires DefinedOp(op, src2, imm)
  {
    if Computes(op) then Value(op, src1, src2, imm, pc, mem)
    else if op.BlNext? || op.BlPc? then pc + 4
    else 1
  }

  /** The registers after the body and the reset of R(0) that follows it. */
  function RegsAfter(op: Op, rd: bv5, src1: bv32, src2: bv32, imm: bv32, pc: bv32, regs: seq<bv32>, mem: Bytes): (r: seq<bv32>)
    requires |regs| == 32 && DefinedOp(op, src2, imm)
    ensures |r| == 32
  {
    var body := if Writes(op, src1, src2, imm) then regs[Dest(op, rd) as int := Written(op, src1, src2, imm, pc, mem)] else regs;
    body[0 := 0]
  }

  /** The three store bodies, `Mw(src1 + imm, len, value)`. */
  predicate IsStore(op: Op) {
    op.StW? || op.StH? || op.StB?
  }

  /** The number of bytes a store writes: four for st.w, two for st.h and for st.b. */
  function StoreWidth(op: Op): Width {
    if op.StW? then 4 else 2
  }

  /** The value a store hands to Mw, from x = R(rd): R(rd) itself, SEXT(R(rd), 16) or SEXT(R(rd), 7). */
  function StoreValue(op: Op, x: bv32): bv32 {
    if op.StW? then x else if op.StH? then Sext(x, 16) else Sext(x, 7)
  }

  /** Memory after the body: only the stores write it. */
  function MemAfter(op: Op, src1: bv32, imm: bv32, x: bv32, mem: Bytes): Bytes {
    if IsStore(op) then Store(mem, src1 + imm, StoreWidth(op), StoreValue(op, x)) else mem
  }

  /** The condition of a conditional branch, on x = R(rd) and src1 = R(rj). */
  predicate Taken(op: Op, x: bv32, src1: bv32) {
    if op.Beq? then x == src1
    else if op.Bne? then x != src1
    else if op.Blt? || op.Bltu? then x > src1
    else if op.Bge? || op.Bgeu? then x <= src1
    else false
  }

  /** The new s->pc: the second bl, B, jirl and the taken branches write it. */
  function PcAfter(op: Op, x: bv32, src1: bv32, imm: bv32, pc: bv32): bv32 {
    if op.BlPc? || op.B? then pc + imm
    else if op.Jirl? then src1 + imm
    else if Taken(op, x, src1) then pc + imm
    else pc
  }

  /** The new s->dnpc, which starts as snpc: only the first bl writes it. */
  function DnpcAfter(op: Op, imm: bv32, pc: bv32, snpc: bv32): bv32 {
    if op.BlNext? then pc + (imm << 2) else snpc
  }

  /** NEMUTRAP(s->pc, R(4)) for break, INV(s->pc) for inv. */
  function OutcomeOf(op: Op, pc: bv32, a0: bv32): Outcome {
    if op.Break? then Trap(pc, a0)
    else if op.Inv? then Invalid(pc)
    else Normal
  }

  /** The body decode_exec runs for word `w`: that of the first table entry that accepts it. */
  function OpOf(w: bv32): Op {
    EntryAt(Select(w)).op
  }

  /** src1 as decode_operand produces it for word `w` in the format of body `op`. */
  function Src1Of(op: Op, w: bv32, regs: seq<bv32>): bv32
    requires |regs| == 32
  {
    DecodeOperand(w, FormatFor(op), regs).src1
  }

  /** src2 as decode_operand produces it for word `w` in the format of body `op`. */
  function Src2Of(op: Op, w: bv32, regs: seq<bv32>): bv32
    requires |regs| == 32
  {
    DecodeOperand(w, FormatFor(op), regs).src2
  }

  /** imm as decode_operand produces it for word `w` in the format of body `op`. */
  function ImmOf(op: Op, w: bv32): bv32 {
    Imm(w, FormatFor(op))
  }

  /** Body `op` on word `w` does not run into undefined behaviour on these registers. */
  predicate Defined(op: Op, w: bv32, regs: seq<bv32>)
    requires |regs| == 32
  {
    DefinedOp(op, Src2Of(op, w, regs), ImmOf(op, w))
  }

  /** The registers once body `op` has run on word `w` at s->pc = pc and R(0) has been cleared. */
  function NextRegs(op: Op, w: bv32, regs: seq<bv32>, mem: Bytes, pc: bv32): (r: seq<bv32>)
    requires |regs| == 32 && Defined(op, w, regs)
    ensures |r| == 32
  {
    RegsAfter(op, Rd(w), Src1Of(op, w, regs), Src2Of(op, w, regs), ImmOf(op, w), pc, regs, mem)
  }

  /** Memory once body `op` has run on word `w`. */
  function NextMem(op: Op, w: bv32, regs: seq<bv32>, mem: Bytes): Bytes
    requires |regs| == 32
  {
    MemAfter(op, Src1Of(op, w, regs), ImmOf(op, w), Reg(regs, Rd(w)), mem)
  }

  /** s->pc once body `op` has run on word `w`. */
  function NextPc(op: Op, w: bv32, regs: seq<bv32>, pc: bv32): bv32
    requires |regs| == 32
  {
    PcAfter(op, Reg(regs, Rd(w)), Src1Of(op, w, regs), ImmOf(op, w), pc)
  }

  /** s->dnpc once body `op` has run on word `w`, s->snpc being `snpc`. */
  function NextDnpc(op: Op, w: bv32, pc: bv32, snpc: bv32): bv32 {
    DnpcAfter(op, ImmOf(op, w), pc, snpc)
  }

  /** How body `op` ends, a0 = R(4) being the code NEMUTRAP reports. */
  function Result(op: Op, regs: seq<bv32>, pc: bv32): Outcome
    requires |regs| == 32
  {
    OutcomeOf(op, pc, Reg(regs, 4))
  }

  // ---------------------------------------------------------------------
  // Properties every body has
  // ---------------------------------------------------------------------

  /** R(0) reads 0 after every instruction, whatever the body wrote and whatever the outcome. */
  lemma ZeroRegister(op: Op, w: bv32, regs: seq<bv32>, mem: Bytes, pc: bv32)
    requires |regs| == 32 && Defined(op, w, regs)
    ensures NextRegs(op, w, regs, mem, pc)[0] == 0
  {}

  /** No register other than the body's destination changes: R(1) for bl, R(rd) for every other body. */
  lemma OnlyDestination(op: Op, w: bv32, regs: seq<bv32>, mem: Bytes, pc: bv32)
    requires |regs| == 32 && Defined(op, w, regs)
    ensures forall r :: 0 < r < 32 && r != Dest(op, Rd(w)) as int ==> NextRegs(op, w, regs, mem, pc)[r] == regs[r]
  {
    assert NextRegs(op, w, regs, mem, pc) == RegsAfter(op, Rd(w), Src1Of(op, w, regs), Src2Of(op, w, regs), ImmOf(op, w), pc, regs, mem);
  }

  // ---------------------------------------------------------------------
  // The bodies `R(rd) = <expression>`, with the operands decode_operand produced
  // ---------------------------------------------------------------------
  /** pcaddu12i (line 60): R(rd) = s->pc + imm. */
  lemma PcAddu12iBody(rd: bv5, src1: bv32, src2: bv32, imm: bv32, pc: bv32, regs: seq<bv32>, mem: Bytes)
    requires |regs| == 32
    ensures RegsAfter(PcAddu12i, rd, src1, src2, imm, pc, regs, mem) == regs[rd as int := pc + imm][0 := 0]
  {}
  /** LU12I.W (line 61): R(rd) = imm. */
  lemma Lu12iWBody(rd: bv5, src1: bv32, src2: bv32, imm: bv32, pc: bv32, regs: seq<bv32>, mem: Bytes)
    requires |regs| == 32
    ensures RegsAfter(Lu12iW, rd, src1, src2, imm, pc, regs, mem) == regs[rd as int := imm][0 := 0]
  {}
  /** or (lines 62 and 97): R(rd) = src1 | src2. */
  lemma OrBody(rd: bv5, src1: bv32, src2: bv32, imm: bv32, pc: bv32, regs: seq<bv32>, mem: Bytes)
    requires |regs| == 32
    ensures RegsAfter(Or, rd, src1, src2, imm, pc, regs, mem) == regs[rd as int := src1 | src2][0 := 0]
  {}
  /** addi.w (lines 63 and 81): R(rd) = src1 + imm, modulo 2^32. */
  lemma AddiWBody(rd: bv5, src1: bv32, src2: bv32, imm: bv32, pc: bv32, regs: seq<bv32>, mem: Bytes)
    requires |regs| == 32
    ensures RegsAfter(AddiW, rd, src1, src2, imm, pc, regs, mem) == regs[rd as int := src1 + imm][0 := 0]
  {}
  /** add.w (line 75): R(rd) = src1 + src2, modulo 2^32. */
  lemma AddWBody(rd: bv5, src1: bv32, src2: bv32, imm: bv32, pc: bv32, regs: seq<bv32>, mem: Bytes)
    requires |regs| == 32
    ensures RegsAfter(AddW, rd, src1, src2, imm, pc, regs, mem) == regs[rd as int := src1 + src2][0 := 0]
  {}
  /** sub.w (line 76): R(rd) = src1 - src2, modulo 2^32. */
  lemma SubWBody(rd: bv5, src1: bv32, src2: bv32, imm: bv32, pc: bv32, regs: seq<bv32>, mem: Bytes)
    requires |regs| == 32
    ensures RegsAfter(SubW, rd, src1, src2, imm, pc, regs, mem) == regs[rd as int := src1 - src2][0 := 0]
  {}
  /** DIV.W (line 77): the unsigned quotient, as word_t is unsigned. */
  lemma DivWBody(rd: bv5, src1: bv32, src2: bv32, imm: bv32, pc: bv32, regs: seq<bv32>, mem: Bytes)
    requires |regs| == 32 && src2 != 0
    ensures RegsAfter(DivW, rd, src1, src2, imm, pc, regs, mem) == regs[rd as int := src1 / src2][0 := 0]
  {}
  /** MOD.W (line 78): the unsigned remainder. */
  lemma ModWBody(rd: bv5, src1: bv32, src2: bv32, imm: bv32, pc: bv32, regs: seq<bv32>, mem: Bytes)
    requires |regs| == 32 && src2 != 0
    ensures RegsAfter(ModW, rd, src1, src2, imm, pc, regs, mem) == regs[rd as int := src1 % src2][0 := 0]
  {}
  /** DIV.WU (line 79): the unsigned quotient. */
  lemma DivWuBody(rd: bv5, src1: bv32, src2: bv32, imm: bv32, pc: bv32, regs: seq<bv32>, mem: Bytes)
    requires |regs| == 32 && src2 != 0
    ensures RegsAfter(DivWu, rd, src1, src2, imm, pc, regs, mem) == regs[rd as int := src1 / src2][0 := 0]
  {}
  /** MOD.WU (line 80): the unsigned remainder. */
  lemma ModWuBody(rd: bv5, src1: bv32, src2: bv32, imm: bv32, pc: bv32, regs: seq<bv32>, mem: Bytes)
    requires |regs| == 32 && src2 != 0
    ensures RegsAfter(ModWu, rd, src1, src2, imm, pc, regs, mem) == regs[rd as int := src1 % src2][0 := 0]
  {}
  /** ANDI (line 84): R(rd) = src1 & imm. */
  lemma AndiBody(rd: bv5, src1: bv32, src2: bv32, imm: bv32, pc: bv32, regs: seq<bv32>, mem: Bytes)
    requires |regs| == 32
    ensures RegsAfter(Andi, rd, src1, src2, imm, pc, regs, mem) == regs[rd as int := src1 & imm][0 := 0]
  {}
  /** ORI (line 85): R(rd) = src1 | imm. */
  lemma OriBody(rd: bv5, src1: bv32, src2: bv32, imm: bv32, pc: bv32, regs: seq<bv32>, mem: Bytes)
    requires |regs| == 32
    ensures RegsAfter(Ori, rd, src1, src2, imm, pc, regs, mem) == regs[rd as int := src1 | imm][0 := 0]
  {}
  /** XORI (line 86): R(rd) = src1 ^ imm. */
  lemma XoriBody(rd: bv5, src1: bv32, src2: bv32, imm: bv32, pc: bv32, regs: seq<bv32>, mem: Bytes)
    requires |regs| == 32
    ensures RegsAfter(Xori, rd, src1, src2, imm, pc, regs, mem) == regs[rd as int := src1 ^ imm][0 := 0]
  {}
  /** MUL.W (line 87): the low 32 bits of the product. */
  lemma MulWBody(rd: bv5, src1: bv32, src2: bv32, imm: bv32, pc: bv32, regs: seq<bv32>, mem: Bytes)
    requires |regs| == 32
    ensures RegsAfter(MulW, rd, src1, src2, imm, pc, regs, mem) == regs[rd as int := src1 * src2][0 := 0]
  {}
  /** MULH.W (line 88): 0, as the shift by 32 leaves nothing of the product in 32 bits. */
  lemma MulhWBody(rd: bv5, src1: bv32, src2: bv32, imm: bv32, pc: bv32, regs: seq<bv32>, mem: Bytes)
    requires |regs| == 32
    ensures RegsAfter(MulhW, rd, src1, src2, imm, pc, regs, mem) == regs[rd as int := 0][0 := 0]
  {}
  /** MULH.WU (line 89): 0 as well. */
  lemma MulhWuBody(rd: bv5, src1: bv32, src2: bv32, imm: bv32, pc: bv32, regs: seq<bv32>, mem: Bytes)
    requires |regs| == 32
    ensures RegsAfter(MulhWu, rd, src1, src2, imm, pc, regs, mem) == regs[rd as int := 0][0 := 0]
  {}
  /** SLL.W (line 90): src1 shifted left by src2. */
  lemma SllWBody(rd: bv5, src1: bv32, src2: bv32, imm: bv32, pc: bv32, regs: seq<bv32>, mem: Bytes)
    requires |regs| == 32 && src2 < 32
    ensures RegsAfter(SllW, rd, src1, src2, imm, pc, regs, mem) == regs[rd as int := src1 << src2][0 := 0]
  {}
  /** SRL.W (line 91): src1 shifted right by src2, zeros shifted in. */
  lemma SrlWBody(rd: bv5, src1: bv32, src2: bv32, imm: bv32, pc: bv32, regs: seq<bv32>, mem: Bytes)
    requires |regs| == 32 && src2 < 32
    ensures RegsAfter(SrlW, rd, src1, src2, imm, pc, regs, mem) == regs[rd as int := src1 >> src2][0 := 0]
  {}
  /** SRA.W (line 92): also a logical shift, src1 being unsigned. */
  lemma SraWBody(rd: bv5, src1: bv32, src2: bv32, imm: bv32, pc: bv32, regs: seq<bv32>, mem: Bytes)
    requires |regs| == 32 && src2 < 32
    ensures RegsAfter(SraW, rd, src1, src2, imm, pc, regs, mem) == regs[rd as int := src1 >> src2][0 := 0]
  {}
  /** SLLI.W (line 93): src1 shifted left by (uint8_t)imm. */
  lemma SlliWBody(rd: bv5, src1: bv32, src2: bv32, imm: bv32, pc: bv32, regs: seq<bv32>, mem: Bytes)
    requires |regs| == 32 && imm & 0xFF < 32
    ensures RegsAfter(SlliW, rd, src1, src2, imm, pc, regs, mem) == regs[rd as int := src1 << (imm & 0xFF)][0 := 0]
  {}
  /** SRLI.W (line 94): src1 shifted right by (uint8_t)imm. */
  lemma SrliWBody(rd: bv5, src1: bv32, src2: bv32, imm: bv32, pc: bv32, regs: seq<bv32>, mem: Bytes)
    requires |regs| == 32 && imm & 0xFF < 32
    ensures RegsAfter(SrliW, rd, src1, src2, imm, pc, regs, mem) == regs[rd as int := src1 >> (imm & 0xFF)][0 := 0]
  {}
  /** SRAI.W (line 95): a logical shift too. */
  lemma SraiWBody(rd: bv5, src1: bv32, src2: bv32, imm: bv32, pc: bv32, regs: seq<bv32>, mem: Bytes)
    requires |regs| == 32 && imm & 0xFF < 32
    ensures RegsAfter(SraiW, rd, src1, src2, imm, pc, regs, mem) == regs[rd as int := src1 >> (imm & 0xFF)][0 := 0]
  {}
  /** xor (line 98): R(rd) = src1 ^ src2. */
  lemma XorBody(rd: bv5, src1: bv32, src2: bv32, imm: bv32, pc: bv32, regs: seq<bv32>, mem: Bytes)
    requires |regs| == 32
    ensures RegsAfter(Xor, rd, src1, src2, imm, pc, regs, mem) == regs[rd as int := src1 ^ src2][0 := 0]
  {}
  /** AND (line 101): R(rd) = src1 & src2. */
  lemma AndBody(rd: bv5, src1: bv32, src2: bv32, imm: bv32, pc: bv32, regs: seq<bv32>, mem: Bytes)
    requires |regs| == 32
    ensures RegsAfter(And, rd, src1, src2, imm, pc, regs, mem) == regs[rd as int := src1 & src2][0 := 0]
  {}
  /** NOR (line 102): R(rd) = ~(src1 | src2). */
  lemma NorBody(rd: bv5, src1: bv32, src2: bv32, imm: bv32, pc: bv32, regs: seq<bv32>, mem: Bytes)
    requires |regs| == 32
    ensures RegsAfter(Nor, rd, src1, src2, imm, pc, regs, mem) == regs[rd as int := !(src1 | src2)][0 := 0]
  {}
  // ---------------------------------------------------------------------
  // The loads: R(rd) = Mr(src1 + imm, len), zero-extended
  // ---------------------------------------------------------------------
  /** ld.w (line 65): four bytes. */
  lemma LdWBody(rd: bv5, src1: bv32, src2: bv32, imm: bv32, pc: bv32, regs: seq<bv32>, mem: Bytes)
    requires |regs| == 32
    ensures RegsAfter(LdW, rd, src1, src2, imm, pc, regs, mem) == regs[rd as int := Load(mem, src1 + imm, 4)][0 := 0]
  {}
  /** ld.h (line 66): two bytes, not sign-extended. */
  lemma LdHBody(rd: bv5, src1: bv32, src2: bv32, imm: bv32, pc: bv32, regs: seq<bv32>, mem: Bytes)
    requires |regs| == 32
    ensures RegsAfter(LdH, rd, src1, src2, imm, pc, regs, mem) == regs[rd as int := Load(mem, src1 + imm, 2)][0 := 0]
  {}
  /** ld.b (line 67): four bytes, not one. */
  lemma LdBBody(rd: bv5, src1: bv32, src2: bv32, imm: bv32, pc: bv32, regs: seq<bv32>, mem: Bytes)
    requires |regs| == 32
    ensures RegsAfter(LdB, rd, src1, src2, imm, pc, regs, mem) == regs[rd as int := Load(mem, src1 + imm, 4)][0 := 0]
  {}
  /** ld.bu (line 68): four bytes, not one. */
  lemma LdBuBody(rd: bv5, src1: bv32, src2: bv32, imm: bv32, pc: bv32, regs: seq<bv32>, mem: Bytes)
    requires |regs| == 32
    ensures RegsAfter(LdBu, rd, src1, src2, imm, pc, regs, mem) == regs[rd as int := Load(mem, src1 + imm, 4)][0 := 0]
  {}
  /** ld.hu (line 69): two bytes. */
  lemma LdHuBody(rd: bv5, src1: bv32, src2: bv32, imm: bv32, pc: bv32, regs: seq<bv32>, mem: Bytes)
    requires |regs| == 32
    ensures RegsAfter(LdHu, rd, src1, src2, imm, pc, regs, mem) == regs[rd as int := Load(mem, src1 + imm, 2)][0 := 0]
  {}
  // ---------------------------------------------------------------------
  // The comparisons: R(rd) = 1 when the unsigned test holds, else R(rd) is kept
  // ---------------------------------------------------------------------
  /** SLTUI (line 82). */
  lemma SltuiBody(rd: bv5, src1: bv32, src2: bv32, imm: bv32, pc: bv32, regs: seq<bv32>, mem: Bytes)
    requires |regs| == 32
    ensures RegsAfter(Sltui, rd, src1, src2, imm, pc, regs, mem) == (if src1 < imm then regs[rd as int := 1] else regs)[0 := 0]
  {}
  /** SLTI (line 83): also unsigned. */
  lemma SltiBody(rd: bv5, src1: bv32, src2: bv32, imm: bv32, pc: bv32, regs: seq<bv32>, mem: Bytes)
    requires |regs| == 32
    ensures RegsAfter(Slti, rd, src1, src2, imm, pc, regs, mem) == (if src1 < imm then regs[rd as int := 1] else regs)[0 := 0]
  {}
  /** SLT (line 99): also unsigned. */
  lemma SltBody(rd: bv5, src1: bv32, src2: bv32, imm: bv32, pc: bv32, regs: seq<bv32>, mem: Bytes)
    requires |regs| == 32
    ensures RegsAfter(Slt, rd, src1, src2, imm, pc, regs, mem) == (if src1 < src2 then regs[rd as int := 1] else regs)[0 := 0]
  {}
  /** SLTU (line 100). */
  lemma SltuBody(rd: bv5, src1: bv32, src2: bv32, imm: bv32, pc: bv32, regs: seq<bv32>, mem: Bytes)
    requires |regs| == 32
    ensures RegsAfter(Sltu, rd, src1, src2, imm, pc, regs, mem) == (if src1 < src2 then regs[rd as int := 1] else regs)[0 := 0]
  {}
  // ---------------------------------------------------------------------
  // The stores: Mw(src1 + imm, len, value), no register written
  // ---------------------------------------------------------------------

  /** st.w (line 71): the four bytes of R(rd). */
  lemma StWBody(rd: bv5, src1: bv32, src2: bv32, imm: bv32, pc: bv32, regs: seq<bv32>, mem: Bytes, x: bv32)
    requires |regs| == 32
    ensures MemAfter(StW, src1, imm, x, mem) == Store(mem, src1 + imm, 4, x)
    ensures RegsAfter(StW, rd, src1, src2, imm, pc, regs, mem) == regs[0 := 0]
  {
    assert !Writes(StW, src1, src2, imm);
  }

  /** st.h (line 72): two bytes of SEXT(R(rd), 16), that is the low half of R(rd). */
  lemma StHBody(rd: bv5, src1: bv32, src2: bv32, imm: bv32, pc: bv32, regs: seq<bv32>, mem: Bytes, x: bv32)
    requires |regs| == 32
    ensures MemAfter(StH, src1, imm, x, mem) == Store(mem, src1 + imm, 2, Sext(x, 16))
    ensures RegsAfter(StH, rd, src1, src2, imm, pc, regs, mem) == regs[0 := 0]
  {
    assert !Writes(StH, src1, src2, imm);
  }

  /** st.b (line 73): two bytes, not one, of SEXT(R(rd), 7). */
  lemma StBBody(rd: bv5, src1: bv32, src2: bv32, imm: bv32, pc: bv32, regs: seq<bv32>, mem: Bytes, x: bv32)
    requires |regs| == 32
    ensures MemAfter(StB, src1, imm, x, mem) == Store(mem, src1 + imm, 2, Sext(x, 7))
    ensures RegsAfter(StB, rd, src1, src2, imm, pc, regs, mem) == regs[0 := 0]
  {
    assert !Writes(StB, src1, src2, imm);
  }

  /** Reading back what st.w wrote gives R(rd). */
  lemma StWReadBack(src1: bv32, imm: bv32, x: bv32, mem: Bytes)
    ensures Load(MemAfter(StW, src1, imm, x, mem), src1 + imm, 4) == x
  {
    LoadStore(mem, src1 + imm, 4, x);
  }

  /** Reading back the two bytes st.h wrote gives the low 16 bits of R(rd). */
  lemma StHReadBack(src1: bv32, imm: bv32, x: bv32, mem: Bytes)
    ensures Load(MemAfter(StH, src1, imm, x, mem), src1 + imm, 2) == x & 0xFFFF
  {
    LoadStore(mem, src1 + imm, 2, Sext(x, 16));
  }

  /**
   * Reading back the two bytes st.b wrote gives the low 7 bits of R(rd)
   * with bit 6 copied into bits 15..7, not the low byte of R(rd).
   */
  lemma StBReadBack(src1: bv32, imm: bv32, x: bv32, mem: Bytes)
    ensures Load(MemAfter(StB, src1, imm, x, mem), src1 + imm, 2) == (x & 0x7F) | (if x & 0x40 == 0 then 0 else 0xFF80)
  {
    LoadStore(mem, src1 + imm, 2, Sext(x, 7));
  }

  /** Every body leaves memory alone outside the bytes a store writes. */
  lemma StoreFootprint(op: Op, src1: bv32, imm: bv32, x: bv32, mem: Bytes, a: bv32)
    requires !Within(src1 + imm, StoreWidth(op), a)
    ensures ByteAt(MemAfter(op, src1, imm, x, mem), a) == ByteAt(mem, a)
  {
    if IsStore(op) {
      StoreFrame(mem, src1 + imm, StoreWidth(op), StoreValue(op, x), a);
    }
  }

  /** Only the three stores change memory. */
  lemma MemoryOnlyByStores(op: Op, src1: bv32, imm: bv32, x: bv32, mem: Bytes)
    requires !IsStore(op)
    ensures MemAfter(op, src1, imm, x, mem) == mem
  {}

  // ---------------------------------------------------------------------
  // Jumps and branches: they write s->pc, never s->dnpc
  // ---------------------------------------------------------------------

  /** bl (line 64): R(1) = s->pc + 4 and s->dnpc = s->pc + (imm << 2); s->pc is kept. */
  lemma BlNextBody(rd: bv5, src1: bv32, src2: bv32, imm: bv32, pc: bv32, regs: seq<bv32>, mem: Bytes, x: bv32, snpc: bv32)
    requires |regs| == 32
    ensures RegsAfter(BlNext, rd, src1, src2, imm, pc, regs, mem) == regs[1 := pc + 4][0 := 0]
    ensures DnpcAfter(BlNext, imm, pc, snpc) == pc + (imm << 2)
    ensures PcAfter(BlNext, x, src1, imm, pc) == pc
  {}

  /** BL (line 104): R(1) = s->pc + 4 and s->pc += imm. */
  lemma BlPcBody(rd: bv5, src1: bv32, src2: bv32, imm: bv32, pc: bv32, regs: seq<bv32>, mem: Bytes, x: bv32)
    requires |regs| == 32
    ensures RegsAfter(BlPc, rd, src1, src2, imm, pc, regs, mem) == regs[1 := pc + 4][0 := 0]
    ensures PcAfter(BlPc, x, src1, imm, pc) == pc + imm
  {}

  /** B (line 105): s->pc += imm, no register written. */
  lemma BBody(rd: bv5, src1: bv32, src2: bv32, imm: bv32, pc: bv32, regs: seq<bv32>, mem: Bytes, x: bv32)
    requires |regs| == 32
    ensures RegsAfter(B, rd, src1, src2, imm, pc, regs, mem) == regs[0 := 0]
    ensures PcAfter(B, x, src1, imm, pc) == pc + imm
  {
    assert !Writes(B, src1, src2, imm);
  }

  /**
   * jirl (line 107): R(rd) = s->pc + 4 and s->pc = src1 + imm, src1 being
   * the value read before the link is written.
   */
  lemma JirlBody(rd: bv5, src1: bv32, src2: bv32, imm: bv32, pc: bv32, regs: seq<bv32>, mem: Bytes, x: bv32)
    requires |regs| == 32
    ensures RegsAfter(Jirl, rd, src1, src2, imm, pc, regs, mem) == regs[rd as int := pc + 4][0 := 0]
    ensures PcAfter(Jirl, x, src1, imm, pc) == src1 + imm
  {}

  /** BEQ (line 108): taken when R(rd) == src1. */
  lemma BeqBody(rd: bv5, src1: bv32, src2: bv32, imm: bv32, pc: bv32, regs: seq<bv32>, mem: Bytes, x: bv32)
    requires |regs| == 32
    ensures PcAfter(Beq, x, src1, imm, pc) == if x == src1 then pc + imm else pc
    ensures RegsAfter(Beq, rd, src1, src2, imm, pc, regs, mem) == regs[0 := 0]
  {
    assert !Writes(Beq, src1, src2, imm);
  }

  /** BNE (line 109): taken when R(rd) != src1. */
  lemma BneBody(rd: bv5, src1: bv32, src2: bv32, imm: bv32, pc: bv32, regs: seq<bv32>, mem: Bytes, x: bv32)
    requires |regs| == 32
    ensures PcAfter(Bne, x, src1, imm, pc) == if x != src1 then pc + imm else pc
    ensures RegsAfter(Bne, rd, src1, src2, imm, pc, regs, mem) == regs[0 := 0]
  {
    assert !Writes(Bne, src1, src2, imm);
  }

  /** BLT (line 110): taken when R(rd) > src1, unsigned. */
  lemma BltBody(rd: bv5, src1: bv32, src2: bv32, imm: bv32, pc: bv32, regs: seq<bv32>, mem: Bytes, x: bv32)
    requires |regs| == 32
    ensures PcAfter(Blt, x, src1, imm, pc) == if x > src1 then pc + imm else pc
    ensures RegsAfter(Blt, rd, src1, src2, imm, pc, regs, mem) == regs[0 := 0]
  {
    assert !Writes(Blt, src1, src2, imm);
  }

  /** BGE (line 111): taken when R(rd) <= src1, unsigned. */
  lemma BgeBody(rd: bv5, src1: bv32, src2: bv32, imm: bv32, pc: bv32, regs: seq<bv32>, mem: Bytes, x: bv32)
    requires |regs| == 32
    ensures PcAfter(Bge, x, src1, imm, pc) == if x <= src1 then pc + imm else pc
    ensures RegsAfter(Bge, rd, src1, src2, imm, pc, regs, mem) == regs[0 := 0]
  {
    assert !Writes(Bge, src1, src2, imm);
  }

  /** BLTU (line 112): taken when R(rd) > src1. */
  lemma BltuBody(rd: bv5, src1: bv32, src2: bv32, imm: bv32, pc: bv32, regs: seq<bv32>, mem: Bytes, x: bv32)
    requires |regs| == 32
    ensures PcAfter(Bltu, x, src1, imm, pc) == if x > src1 then pc + imm else pc
    ensures RegsAfter(Bltu, rd, src1, src2, imm, pc, regs, mem) == regs[0 := 0]
  {
    assert !Writes(Bltu, src1, src2, imm);
  }

  /** BGEU (line 113): taken when R(rd) <= src1. */
  lemma BgeuBody(rd: bv5, src1: bv32, src2: bv32, imm: bv32, pc: bv32, regs: seq<bv32>, mem: Bytes, x: bv32)
    requires |regs| == 32
    ensures PcAfter(Bgeu, x, src1, imm, pc) == if x <= src1 then pc + imm else pc
    ensures RegsAfter(Bgeu, rd, src1, src2, imm, pc, regs, mem) == regs[0 := 0]
  {
    assert !Writes(Bgeu, src1, src2, imm);
  }

  /** Only the jumps and the taken branches move s->pc. */
  lemma PcOnlyByJumps(op: Op, x: bv32, src1: bv32, imm: bv32, pc: bv32)
    requires !op.BlPc? && !op.B? && !op.Jirl?
    requires !Taken(op, x, src1)
    ensures PcAfter(op, x, src1, imm, pc) == pc
  {}

  /** Only the first bl line moves s->dnpc away from s->snpc. */
  lemma DnpcOnlyByBl(op: Op, imm: bv32, pc: bv32, snpc: bv32)
    requires !op.BlNext?
    ensures DnpcAfter(op, imm, pc, snpc) == snpc
  {}

  // ---------------------------------------------------------------------
  // The bodies that do nothing, and the two that stop the emulator
  // ---------------------------------------------------------------------

  /** DBAR (line 115) only clears its local imm: nothing changes. */
  lemma DbarBody(rd: bv5, src1: bv32, src2: bv32, imm: bv32, pc: bv32, regs: seq<bv32>, mem: Bytes, x: bv32)
    requires |regs| == 32
    ensures RegsAfter(Dbar, rd, src1, src2, imm, pc, regs, mem) == regs[0 := 0]
    ensures MemAfter(Dbar, src1, imm, x, mem) == mem
    ensures PcAfter(Dbar, x, src1, imm, pc) == pc
    ensures OutcomeOf(Dbar, pc, x) == Normal
  {
    assert !Writes(Dbar, src1, src2, imm);
  }

  /** IBAR (line 116) neither. */
  lemma IbarBody(rd: bv5, src1: bv32, src2: bv32, imm: bv32, pc: bv32, regs: seq<bv32>, mem: Bytes, x: bv32)
    requires |regs| == 32
    ensures RegsAfter(Ibar, rd, src1, src2, imm, pc, regs, mem) == regs[0 := 0]
    ensures MemAfter(Ibar, src1, imm, x, mem) == mem
    ensures PcAfter(Ibar, x, src1, imm, pc) == pc
    ensures OutcomeOf(Ibar, pc, x) == Normal
  {
    assert !Writes(Ibar, src1, src2, imm);
  }

  /** break (line 118) stops the emulator with NEMUTRAP(s->pc, R(4)) and writes no register. */
  lemma BreakBody(rd: bv5, src1: bv32, src2: bv32, imm: bv32, pc: bv32, regs: seq<bv32>, mem: Bytes, a0: bv32)
    requires |regs| == 32
    ensures OutcomeOf(Break, pc, a0) == Trap(pc, a0)
    ensures RegsAfter(Break, rd, src1, src2, imm, pc, regs, mem) == regs[0 := 0]
  {
    assert !Writes(Break, src1, src2, imm);
  }

  /** inv (line 119) stops it with INV(s->pc) and writes no register. */
  lemma InvBody(rd: bv5, src1: bv32, src2: bv32, imm: bv32, pc: bv32, regs: seq<bv32>, mem: Bytes, a0: bv32)
    requires |regs| == 32
    ensures OutcomeOf(Inv, pc, a0) == Invalid(pc)
    ensures RegsAfter(Inv, rd, src1, src2, imm, pc, regs, mem) == regs[0 := 0]
  {
    assert !Writes(Inv, src1, src2, imm);
  }

  /** Every other body continues normally. */
  lemma NormalOutcome(op: Op, pc: bv32, a0: bv32)
    ensures OutcomeOf(op, pc, a0) == Normal <==> !op.Break? && !op.Inv?
  {}

  // ---------------------------------------------------------------------
  // Whole instructions: the entry the word selects, then its body
  // ---------------------------------------------------------------------

  /**
   * A word whose top 17 bits are 00000000001010100 stops the emulator with
   * NEMUTRAP(s->pc, R(4)), and no other word does.
   */
  lemma TrapOutcome(w: bv32, regs: seq<bv32>, pc: bv32)
    requires |regs| == 32
    ensures Result(OpOf(w), regs, pc) == Trap(pc, Reg(regs, 4)) <==> w & 0xFFFF_8000 == 0x002A_0000
  {
    SelectBreak(w);
    OpLines(Select(w));
  }

  /** A word that no entry before the last accepts stops the emulator with INV(s->pc), and no other word does. */
  lemma InvalidOutcome(w: bv32, regs: seq<bv32>, pc: bv32)
    requires |regs| == 32
    ensures Result(OpOf(w), regs, pc) == Invalid(pc) <==> forall j :: 0 <= j < Count - 1 ==> !Hit(EntryAt(j), w)
  {
    SelectInv(w);
    OpLines(Select(w));
  }

  /**
   * s->dnpc ends as s->snpc unless the word is a bl (top six bits 010101),
   * which sets it to s->pc + (imm << 2), imm being simm26 (BlImmediate).
   */
  lemma NextDnpcIs(w: bv32, pc: bv32, snpc: bv32)
    ensures NextDnpc(OpOf(w), w, pc, snpc) == if w & 0xFC00_0000 == 0x5400_0000 then pc + (ImmOf(BlNext, w) << 2) else snpc
  {
    BlWord(w);
    if OpOf(w).BlNext? {
      assert OpOf(w) == BlNext;
    }
  }

  /** A word runs the first bl body exactly when its top six bits are 010101. */
  lemma BlWord(w: bv32)
    ensures OpOf(w).BlNext? <==> w & 0xFC00_0000 == 0x5400_0000
  {
    SelectBl(w);
    OpLines(Select(w));
  }

  /** bl takes the I26 format, whose immediate is simm26. */
  lemma BlImmediate(w: bv32)
    ensures ImmOf(BlNext, w) == Simm26(w)
  {}

  /** jirl jumps to src1 + imm, src1 being read before the link is written, even when rj == rd. */
  lemma JirlTarget(w: bv32, regs: seq<bv32>, pc: bv32)
    requires |regs| == 32
    ensures NextPc(Jirl, w, regs, pc) == Src1Of(Jirl, w, regs) + ImmOf(Jirl, w)
  {}

  /** jirl takes the 2RI16 format: src1 is R(rj) and imm is simm16. */
  lemma JirlOperands(w: bv32, regs: seq<bv32>)
    requires |regs| == 32
    ensures Src1Of(Jirl, w, regs) == Reg(regs, Rj(w))
    ensures ImmOf(Jirl, w) == Simm16(w)
  {}

  /** The bodies on the shadowed lines never run. */
  lemma NeverRun(w: bv32)
    ensures !OpOf(w).ModWu? && !OpOf(w).Slti? && !OpOf(w).Xori?
    ensures !OpOf(w).MulhWu? && !OpOf(w).SraiW? && !OpOf(w).BlPc?
  {
    UnreachableBodies(w);
  }

  // ---------------------------------------------------------------------
  // decode_exec
  // ---------------------------------------------------------------------

  /**
   * decode_exec: s->dnpc starts as s->snpc, the first entry that accepts
   * s->inst is found, decode_operand fills in the operands for its format
   * and its body runs; the outcome is what NEMUTRAP or INV would report,
   * and decode_exec itself always returns 0.
   */
  method DecodeExec(s: Decode, cpu: Cpu, ram: Ram) returns (ret: int, outcome: Outcome)
    requires cpu.gpr.Length == 32
    requires Defined(OpOf(s.inst), s.inst, cpu.gpr[..])
    modifies s, cpu.gpr, ram
    ensures s.snpc == old(s.snpc) && s.inst == old(s.inst)
    ensures ret == 0
    ensures cpu.gpr[..] == NextRegs(OpOf(s.inst), s.inst, old(cpu.gpr[..]), old(ram.bytes), old(s.pc))
    ensures ram.bytes == NextMem(OpOf(s.inst), s.inst, old(cpu.gpr[..]), old(ram.bytes))
    ensures s.pc == NextPc(OpOf(s.inst), s.inst, old(cpu.gpr[..]), old(s.pc))
    ensures s.dnpc == NextDnpc(OpOf(s.inst), s.inst, old(s.pc), old(s.snpc))
    ensures outcome == Result(OpOf(s.inst), old(cpu.gpr[..]), old(s.pc))
  {
    s.dnpc := s.snpc;
    var i := FindEntry(s.inst);
    var op := EntryAt(i).op;
    ghost var regs := cpu.gpr[..];
    var o := DecodeOperand(s.inst, FormatFor(op), cpu.gpr[..]);
    assert op == OpOf(s.inst);
    assert o.rd == Rd(s.inst) && o.src1 == Src1Of(op, s.inst, regs) && o.src2 == Src2Of(op, s.inst, regs) && o.imm == ImmOf(op, s.inst);
    outcome := Execute(op, o.rd, o.src1, o.src2, o.imm, s, cpu, ram);
    ret := 0;
  }

  /**
   * The body of one entry on the operands decode_operand produced, followed
   * by the `R(0) = 0` that ends decode_exec: a register write, a store, or a
   * change of s->pc or s->dnpc, and the outcome. x = R(rd) is read before
   * anything is written, as the stores and branches read it.
   */
  method Execute(op: Op, rd: bv5, src1: bv32, src2: bv32, imm: bv32, s: Decode, cpu: Cpu, ram: Ram) returns (outcome: Outcome)
    requires cpu.gpr.Length == 32
    requires DefinedOp(op, src2, imm)
    modifies s, cpu.gpr, ram
    ensures s.snpc == old(s.snpc) && s.inst == old(s.inst)
    ensures cpu.gpr[..] == RegsAfter(op, rd, src1, src2, imm, old(s.pc), old(cpu.gpr[..]), old(ram.bytes))
    ensures ram.bytes == MemAfter(op, src1, imm, old(cpu.gpr[rd]), old(ram.bytes))
    ensures s.pc == PcAfter(op, old(cpu.gpr[rd]), src1, imm, old(s.pc))
    ensures s.dnpc == DnpcAfter(op, imm, old(s.pc), old(s.dnpc))
    ensures outcome == OutcomeOf(op, old(s.pc), old(cpu.gpr[4]))
  {
    var pc, x, a0 := s.pc, cpu.gpr[rd], cpu.gpr[4];
    WriteRegisters(op, rd, src1, src2, imm, pc, ram.bytes, cpu.gpr);
    WriteMemory(op, src1, imm, x, ram);
    WritePc(op, x, src1, imm, s);
    outcome := OutcomeOf(op, pc, a0);
  }

  /** The body's register write, if it makes one, then `R(0) = 0`. */
  method WriteRegisters(op: Op, rd: bv5, src1: bv32, src2: bv32, imm: bv32, pc: bv32, mem: Bytes, gpr: array<bv32>)
    requires gpr.Length == 32
    requires DefinedOp(op, src2, imm)
    modifies gpr
    ensures gpr[..] == RegsAfter(op, rd, src1, src2, imm, pc, old(gpr[..]), mem)
  {
    if Writes(op, src1, src2, imm) {
      gpr[Dest(op, rd)] := Written(op, src1, src2, imm, pc, mem);
    }
    gpr[0] := 0;
  }

  /** The store bodies' Mw(src1 + imm, len, value); no other body touches memory. */
  method WriteMemory(op: Op, src1: bv32, imm: bv32, x: bv32, ram: Ram)
    modifies ram
    ensures ram.bytes == MemAfter(op, src1, imm, x, old(ram.bytes))
  {
    if IsStore(op) {
      ram.Write(src1 + imm, StoreWidth(op), StoreValue(op, x));
    }
  }

  /** The jumps' and branches' write of s->pc and the first bl's write of s->dnpc. */
  method WritePc(op: Op, x: bv32, src1: bv32, imm: bv32, s: Decode)
    modifies s
    ensures s.pc == PcAfter(op, x, src1, imm, old(s.pc))
    ensures s.dnpc == DnpcAfter(op, imm, old(s.pc), old(s.dnpc))
    ensures s.snpc == old(s.snpc) && s.inst == old(s.inst)
  {
    var pc := s.pc;
    s.pc := PcAfter(op, x, src1, imm, pc);
    s.dnpc := DnpcAfter(op, imm, pc, s.dnpc);
  }
}
