/**
 * The operand decoder of the LoongArch32r dispatcher: the immediate
 * macros `simm12` .. `hint16` and `decode_operand`, which turns a word
 * and a format tag into the destination index `rd`, the register values
 * `src1` and `src2` and the immediate `imm`.
 *
 * Every immediate is the value that ends up in the 32-bit `word_t imm`;
 * SEXT works on 64 bits, but only its low 32 bits survive the store.
 */
module Operand {
  import opened Bits

  /** The operand formats of decode_operand's switch (TYPE_1RI20 .. TYPE_N). */
  datatype Format = F1RI20 | F2RI12 | F2RUI12 | F3R | FI26 | F2RI16 | F2RUI5 | FLanzan | FN

  /** What decode_operand hands to an instruction's effect. */
  datatype Operands = Operands(rd: bv5, src1: bv32, src2: bv32, imm: bv32)

  /** R(r): register `r` of a 32-entry register file. */
  function Reg(regs: seq<bv32>, r: bv5): bv32
    requires |regs| == 32
  {
    regs[r as int]
  }

  /** rd = BITS(i, 4, 0). */
  function Rd(w: bv32): bv5 {
    (w & 0x1F) as bv5
  }

  /** rj = BITS(i, 9, 5). */
  function Rj(w: bv32): bv5 {
    ((w >> 5) & 0x1F) as bv5
  }

  /** rk = BITS(i, 14, 10). */
  function Rk(w: bv32): bv5 {
    ((w >> 10) & 0x1F) as bv5
  }

  /*
   * The immediates, with the field extraction and the sign extension
   * written out on masks; the ...IsMacro lemmas below show that each is
   * the macro's BITS/SEXT expression.
   */

  /** simm12: SEXT(BITS(i, 21, 10), 32); a 12-bit field is never negative as a 32-bit number. */
  function Simm12(w: bv32): bv32 {
    (w >> 10) & 0xFFF
  }

  /** simm20: SEXT(BITS(i, 24, 5), 20) << 12, cut to 32 bits. */
  function Simm20(w: bv32): bv32 {
    ((((w >> 5) & 0xF_FFFF) ^ 0x8_0000) - 0x8_0000) << 12
  }

  /**
   * simm26: SEXT(((BITS(i, 25, 10) | (BITS(i, 9, 0) << 15)) << 2), 26).
   * The low part is shifted by 15, so bit 0 of the word lands on the same
   * position as bit 25.
   */
  function Simm26(w: bv32): bv32 {
    var x := (((w >> 10) & 0xFFFF) | ((w & 0x3FF) << 15)) << 2;
    ((x & 0x3FF_FFFF) ^ 0x200_0000) - 0x200_0000
  }

  /** simm16: SEXT((BITS(i, 25, 10) << 2), 32). */
  function Simm16(w: bv32): bv32 {
    ((w >> 10) & 0xFFFF) << 2
  }

  /** uimm5: SEXT(BITS(i, 14, 10), 5), so a field of 16 or more becomes negative. */
  function Uimm5(w: bv32): bv32 {
    (((w >> 10) & 0x1F) ^ 0x10) - 0x10
  }

  /** hint16: SEXT(BITS(i, 15, 0), 16). */
  function Hint16(w: bv32): bv32 {
    ((w & 0xFFFF) ^ 0x8000) - 0x8000
  }

  lemma Simm12IsMacro(w: bv32)
    ensures Simm12(w) == Sext(Field(w, 21, 10), 32)
  {}

  lemma Simm20IsMacro(w: bv32)
    ensures Simm20(w) == Sext(Field(w, 24, 5), 20) << 12
  {}

  lemma Simm26IsMacro(w: bv32)
    ensures Simm26(w) == Sext((Field(w, 25, 10) | (Field(w, 9, 0) << 15)) << 2, 26)
  {}

  lemma Simm16IsMacro(w: bv32)
    ensures Simm16(w) == Sext(Field(w, 25, 10) << 2, 32)
  {}

  lemma Uimm5IsMacro(w: bv32)
    ensures Uimm5(w) == Sext(Field(w, 14, 10), 5)
  {}

  lemma Hint16IsMacro(w: bv32)
    ensures Hint16(w) == Sext(Field(w, 15, 0), 16)
  {}

  /** The formats whose case in decode_operand calls src1R(): all but I26, LANZAN and N. */
  predicate ReadsRj(fmt: Format) {
    !(fmt == FI26 || fmt == FLanzan || fmt == FN)
  }

  /** src1: R(rj) for the formats that call src1R(), else the 0 decode_exec initialised it with. */
  function Src1(w: bv32, fmt: Format, regs: seq<bv32>): bv32
    requires |regs| == 32
  {
    if ReadsRj(fmt) then Reg(regs, Rj(w)) else 0
  }

  /** src2: R(rk) for 3R, the only format that calls src2R(). */
  function Src2(w: bv32, fmt: Format, regs: seq<bv32>): bv32
    requires |regs| == 32
  {
    if fmt == F3R then Reg(regs, Rk(w)) else 0
  }

  /** imm: the immediate macro of the format's case; 3R and N leave it at 0. */
  function Imm(w: bv32, fmt: Format): bv32 {
    match fmt
    case F1RI20 => Simm20(w)
    case F2RI12 => Simm12(w)
    case F2RUI12 => Simm12(w)
    case F3R => 0
    case FI26 => Simm26(w)
    case F2RI16 => Simm16(w)
    case F2RUI5 => Uimm5(w)
    case FLanzan => Hint16(w)
    case FN => 0
  }

  /**
   * decode_operand: rd is always bits 4..0; src1 is R(rj) exactly for the
   * formats that call src1R(), src2 is R(rk) only for 3R, and 3R and N
   * leave imm at 0. Whatever the switch does not fill in keeps the 0 that
   * decode_exec initialised it with.
   */
  function DecodeOperand(w: bv32, fmt: Format, regs: seq<bv32>): (o: Operands)
    requires |regs| == 32
    ensures o.rd == Rd(w)
    ensures ReadsRj(fmt) ==> o.src1 == Reg(regs, Rj(w))
    ensures !ReadsRj(fmt) ==> o.src1 == 0
    ensures fmt == F3R ==> o.src2 == Reg(regs, Rk(w))
    ensures fmt != F3R ==> o.src2 == 0
    ensures fmt == F3R || fmt == FN ==> o.imm == 0
  {
    Operands(Rd(w), Src1(w, fmt, regs), Src2(w, fmt, regs), Imm(w, fmt))
  }

  /** The immediate each format's case assembles. */
  lemma DecodeImmediate(w: bv32, fmt: Format, regs: seq<bv32>)
    requires |regs| == 32
    ensures fmt == F1RI20 ==> DecodeOperand(w, fmt, regs).imm == Simm20(w)
    ensures fmt == F2RI12 || fmt == F2RUI12 ==> DecodeOperand(w, fmt, regs).imm == Simm12(w)
    ensures fmt == FI26 ==> DecodeOperand(w, fmt, regs).imm == Simm26(w)
    ensures fmt == F2RI16 ==> DecodeOperand(w, fmt, regs).imm == Simm16(w)
    ensures fmt == F2RUI5 ==> DecodeOperand(w, fmt, regs).imm == Uimm5(w)
    ensures fmt == FLanzan ==> DecodeOperand(w, fmt, regs).imm == Hint16(w)
  {}

  /** simm12 is the raw 12-bit field, not sign-extended: always in [0, 4095]. */
  lemma Simm12Unsigned(w: bv32)
    ensures Simm12(w) < 0x1000
  {}

  /** simm20 puts bits 24..5 of the word into bits 31..12 ... */
  lemma Simm20High(w: bv32)
    ensures Simm20(w) >> 12 == (w >> 5) & 0xF_FFFF
  {}

  /** ... and leaves the low 12 bits clear. */
  lemma Simm20Low(w: bv32)
    ensures Simm20(w) & 0xFFF == 0
  {}

  /** simm16 is bits 25..10 scaled by 4: a multiple of 4 below 2^18. */
  lemma Simm16Scaled(w: bv32)
    ensures Simm16(w) & 3 == 0
    ensures Simm16(w) >> 2 == (w >> 10) & 0xFFFF
  {}

  /** simm26 is a multiple of 4 ... */
  lemma Simm26Aligned(w: bv32)
    ensures Simm26(w) & 3 == 0
  {}

  /** ... bits 16..2 are word bits 24..10 ... */
  lemma Simm26Middle(w: bv32)
    ensures (Simm26(w) >> 2) & 0x7FFF == (w >> 10) & 0x7FFF
  {}

  /** ... bit 17 is word bit 25 or'd with word bit 0, where the two parts overlap ... */
  lemma Simm26Overlap(w: bv32)
    ensures Simm26(w) & 0x2_0000 != 0 <==> w & 0x200_0001 != 0
  {}

  /** ... bits 24..18 are word bits 7..1 ... */
  lemma Simm26Upper(w: bv32)
    ensures (Simm26(w) >> 18) & 0x7F == (w >> 1) & 0x7F
  {}

  /** ... and bits 31..25 all copy word bit 8; word bit 9 is dropped. */
  lemma Simm26Sign(w: bv32)
    ensures Simm26(w) >> 25 == if w & 0x100 == 0 then 0 else 0x7F
  {}

  /** uimm5 keeps bits 14..10 of the word in its low 5 bits ... */
  lemma Uimm5Low(w: bv32)
    ensures Uimm5(w) & 0x1F == (w >> 10) & 0x1F
  {}

  /** ... and copies bit 14 into all the bits above. */
  lemma Uimm5Sign(w: bv32)
    ensures Uimm5(w) >> 5 == if w & 0x4000 == 0 then 0 else 0x7FF_FFFF
  {}

  /** hint16 keeps the low half of the word ... */
  lemma Hint16Low(w: bv32)
    ensures Hint16(w) & 0xFFFF == w & 0xFFFF
  {}

  /** ... and copies bit 15 into the high half. */
  lemma Hint16Sign(w: bv32)
    ensures Hint16(w) >> 16 == if w & 0x8000 == 0 then 0 else 0xFFFF
  {}
}
