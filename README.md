# LoongArch32r instruction decoding and register names in NEMU

This project models two parts of NEMU's LoongArch32r port:

- the decoding and execution of one instruction. This is `decode_exec` in
  `nemu/src/isa/loongarch32r/inst.c`, which relies on several parts:
  - the immediate macros `simm12` .. `hint16`;
  - `decode_operand`;
  - the table of 53 `INSTPAT` lines, each with its own body;
  - the final reset of `R(0)`.
- the lookup of a register by name. This is the `regs[]` name table and
  `isa_reg_str2val` in `nemu/src/isa/loongarch32r/reg.c`.

## Modules and files

- `bits.dfy` (module `Bits`): bits of a 32-bit word, `BITS(x, hi, lo)`,
  and `SEXT(x, len)` as it looks once stored in a 32-bit `word_t`.
- `pattern.dfy` (module `Pattern`): an `INSTPAT` pattern string and the
  (mask, key) pair derived from it. It proves that `(w & mask) == key`
  holds exactly when the pattern matches `w` symbol by symbol.
- `operand.dfy` (module `Operand`):
  - the register fields and the immediate macros;
  - `decode_operand` as a function of the word, the format and the register file.
- `decoder.dfy` (module `Decoder`):
  - the `INSTPAT` table: one entry per line, with its pair, its body and its format;
  - first-match selection, as a function `Select` and as a loop `FindEntry`;
  - facts about the table, such as which lines can never be reached.
- `memory.dfy` (module `Memory`):
  - physical memory as a total byte map;
  - `Mr` and `Mw` as `Load` and `Store`;
  - the `Ram` object that `Mw` updates in place.
- `cpu.dfy` (module `CpuState`):
  - `Cpu`, the CPU state, whose register file is an `array` updated in place;
  - `Decode`, the `Decode` record with `pc`, `snpc`, `dnpc` and the instruction word.
- `exec.dfy` (module `Exec`):
  - each body's effect on the registers, memory, `s->pc`, `s->dnpc` and
    the outcome, written as functions;
  - the method `DecodeExec`, which carries out these effects on the objects;
  - one lemma per body.
- `registers.dfy` (module `Registers`): the name table and
  `isa_reg_str2val` as a method with a loop.

## Where the code and its documentation differ

The model follows the code as written.

**Arithmetic.** `word_t` is an unsigned 32-bit type.
- Every comparison is unsigned, including SLT, SLTI, BLT and BGE.
- DIV.W and MOD.W divide unsigned.
- SRA.W and SRAI.W shift in zeros.
- MULH.W and MULH.WU store 0.

**Immediates.**
- `simm12` is not sign-extended, because the `SEXT(…, 32)` of a 12-bit field is that field.
- `uimm5` is sign-extended.
- `simm26` shifts the low ten bits by 15, not by 16.

**Branches and jumps.** B, the second BL line, jirl and the conditional
branches write `s->pc`; they never write `s->dnpc`.
- BLT is taken when `R(rd) > src1`.
- BGE is taken when `R(rd) <= src1`.

**Memory widths.**
- ld.b and ld.bu read four bytes.
- ld.h is not sign-extended.
- st.b writes two bytes of `SEXT(R(rd), 7)`.

**Shadowed lines.** Eight lines repeat the pattern of an earlier line.
Their bodies never run. The affected bodies are MOD.WU, SLTI, XORI,
MULH.WU, SRAI.W, the second `or`, the second ADDI.w and the second BL.

## Model

| member | source | states |
|---|---|---|
| Operand.Simm12IsMacro | nemu/src/isa/loongarch32r/inst.c:24 | `Simm12` is `SEXT(BITS(i, 21, 10), 32)` |
| Operand.Simm20IsMacro | nemu/src/isa/loongarch32r/inst.c:25 | `Simm20` is `SEXT(BITS(i, 24, 5), 20) << 12` |
| Operand.Simm26IsMacro | nemu/src/isa/loongarch32r/inst.c:26 | `Simm26` is the macro's SEXT of the two fields or'd together with the shift by 15 |
| Operand.Simm16IsMacro | nemu/src/isa/loongarch32r/inst.c:27 | `Simm16` is `SEXT(BITS(i, 25, 10) << 2, 32)` |
| Operand.Uimm5IsMacro | nemu/src/isa/loongarch32r/inst.c:28 | `Uimm5` is `SEXT(BITS(i, 14, 10), 5)` |
| Operand.Hint16IsMacro | nemu/src/isa/loongarch32r/inst.c:29 | `Hint16` is `SEXT(BITS(i, 15, 0), 16)` |
| Operand.Simm12Unsigned | nemu/src/isa/loongarch32r/inst.c:24 | simm12 is always below 4096: it is never negative |
| Operand.Simm20High | nemu/src/isa/loongarch32r/inst.c:25 | bits 31..12 of simm20 are word bits 24..5 |
| Operand.Simm20Low | nemu/src/isa/loongarch32r/inst.c:25 | the low 12 bits of simm20 are clear |
| Operand.Simm16Scaled | nemu/src/isa/loongarch32r/inst.c:27 | simm16 is a multiple of 4 whose bits 17..2 are word bits 25..10 |
| Operand.Simm26Aligned | nemu/src/isa/loongarch32r/inst.c:26 | simm26 is a multiple of 4 |
| Operand.Simm26Middle | nemu/src/isa/loongarch32r/inst.c:26 | bits 16..2 of simm26 are word bits 24..10 |
| Operand.Simm26Overlap | nemu/src/isa/loongarch32r/inst.c:26 | bit 17 of simm26 is set exactly when word bit 25 or word bit 0 is set, because the two fields overlap there |
| Operand.Simm26Upper | nemu/src/isa/loongarch32r/inst.c:26 | bits 24..18 of simm26 are word bits 7..1 |
| Operand.Simm26Sign | nemu/src/isa/loongarch32r/inst.c:26 | bits 31..25 of simm26 all copy word bit 8; word bit 9 is lost |
| Operand.Uimm5Low | nemu/src/isa/loongarch32r/inst.c:28 | the low 5 bits of uimm5 are word bits 14..10 |
| Operand.Uimm5Sign | nemu/src/isa/loongarch32r/inst.c:28 | bits 31..5 of uimm5 all copy word bit 14 |
| Operand.Hint16Low | nemu/src/isa/loongarch32r/inst.c:29 | the low half of hint16 is the low half of the word |
| Operand.Hint16Sign | nemu/src/isa/loongarch32r/inst.c:29 | the high half of hint16 copies word bit 15 |
| Operand.DecodeOperand | nemu/src/isa/loongarch32r/inst.c:31-46 | rd is bits 4..0 for every format. src1 is R(rj) exactly for the formats that call `src1R()`, and 0 otherwise. src2 is R(rk) for 3R alone, and 0 otherwise. 3R and N leave imm at 0 |
| Operand.DecodeImmediate | nemu/src/isa/loongarch32r/inst.c:36-45 | each format's case puts its own macro's immediate in imm |
| Pattern.PairCorrect | nemu/src/isa/loongarch32r/inst.c:59-119 | a (mask, key) pair that agrees bit by bit with a pattern accepts, through `(w & mask) == key`, exactly the words the pattern matches symbol by symbol |
| Pattern.MaskBit | nemu/src/isa/loongarch32r/inst.c:59-119 | bit k of the mask derived from a pattern is set exactly when the symbol for bit k is not `?` |
| Pattern.KeyBit | nemu/src/isa/loongarch32r/inst.c:59-119 | bit k of the key derived from a pattern is set exactly when the symbol for bit k is `1` |
| Pattern.CompilesTo | nemu/src/isa/loongarch32r/inst.c:59-119 | the derived mask and key are the only pair that agrees with the pattern bit by bit |
| Decoder.PairIsPatternDecode | nemu/src/isa/loongarch32r/inst.c:60-119 | each entry's mask and key are exactly the pair derived from that line's pattern string |
| Decoder.HitMatches | nemu/src/isa/loongarch32r/inst.c:60-119 | an entry accepts a word exactly when its line's pattern matches the word |
| Decoder.FirstHitFromFirst | nemu/src/isa/loongarch32r/inst.c:59-120 | the scan stops at the first entry that accepts the word; every entry it passes rejects the word |
| Decoder.FirstHitFromIs | nemu/src/isa/loongarch32r/inst.c:59-120 | if entry k accepts the word and no earlier entry does, the scan stops at k |
| Decoder.Select | nemu/src/isa/loongarch32r/inst.c:59-120 | some entry is always selected |
| Decoder.SelectFirst | nemu/src/isa/loongarch32r/inst.c:59-120 | the selected entry accepts the word and no earlier entry does |
| Decoder.SelectIs | nemu/src/isa/loongarch32r/inst.c:59-120 | the entry that accepts the word, with no earlier entry accepting it, is the one selected |
| Decoder.FindEntry | nemu/src/isa/loongarch32r/inst.c:59-120 | the loop over the table returns the first entry that accepts the word, and that entry is `Select(w)` |
| Decoder.SelectMatches | nemu/src/isa/loongarch32r/inst.c:59-120 | the selected line's pattern matches the word, and no earlier line's pattern does |
| Decoder.InvHits | nemu/src/isa/loongarch32r/inst.c:119 | the all-`?` inv line accepts every word |
| Decoder.SelectInv | nemu/src/isa/loongarch32r/inst.c:119 | inv is selected exactly when none of the 52 lines before it accepts the word |
| Decoder.SelectBreak | nemu/src/isa/loongarch32r/inst.c:118 | break is selected exactly when the top 17 bits are 00000000001010100 |
| Decoder.SelectBl | nemu/src/isa/loongarch32r/inst.c:60-64 | the first bl line is selected exactly when the top six bits are 010101 |
| Decoder.MasksWithinTop17 | nemu/src/isa/loongarch32r/inst.c:60-119 | every pattern fixes only bits among the top 17 |
| Decoder.SelectTop17 | nemu/src/isa/loongarch32r/inst.c:59-120 | the selected entry depends only on bits 31..15 of the word |
| Decoder.LaterDuplicate | nemu/src/isa/loongarch32r/inst.c:59-120 | a line with the same pair as an earlier line is never selected |
| Decoder.Line97Shadowed | nemu/src/isa/loongarch32r/inst.c:97 | the second `or` line is never selected, because line 62 comes first |
| Decoder.Line81Shadowed | nemu/src/isa/loongarch32r/inst.c:81 | the ADDI.w line is never selected, because line 63 comes first |
| Decoder.Line104Shadowed | nemu/src/isa/loongarch32r/inst.c:104 | the second BL line is never selected, because line 64 comes first |
| Decoder.Line80Shadowed | nemu/src/isa/loongarch32r/inst.c:80 | MOD.WU is never selected, because line 78 has its pattern |
| Decoder.Line83Shadowed | nemu/src/isa/loongarch32r/inst.c:83 | SLTI is never selected, because line 82 has its pattern |
| Decoder.Line86Shadowed | nemu/src/isa/loongarch32r/inst.c:86 | XORI is never selected, because line 84 has its pattern |
| Decoder.Line89Shadowed | nemu/src/isa/loongarch32r/inst.c:89 | MULH.WU is never selected, because line 88 has its pattern |
| Decoder.Line95Shadowed | nemu/src/isa/loongarch32r/inst.c:95 | SRAI.W is never selected, because line 94 has its pattern |
| Decoder.Shadowed | nemu/src/isa/loongarch32r/inst.c:59-120 | none of the eight repeated lines is ever selected |
| Decoder.OnlyOnShadowedLines | nemu/src/isa/loongarch32r/inst.c:80-104 | the bodies MOD.WU, SLTI, XORI, MULH.WU, SRAI.W and the second BL occur only on repeated lines |
| Decoder.UnreachableBodies | nemu/src/isa/loongarch32r/inst.c:80-104 | no word runs any of those six bodies |
| Decoder.OpLines | nemu/src/isa/loongarch32r/inst.c:64-119 | the first bl, break and inv bodies each occur on exactly one line: lines 64, 118 and 119 |
| Decoder.Reachable | nemu/src/isa/loongarch32r/inst.c:59-120 | every line that is not a repeat is selected by its own key, so it can run |
| Exec.ZeroRegister | nemu/src/isa/loongarch32r/inst.c:122 | R(0) is 0 after every instruction |
| Exec.OnlyDestination | nemu/src/isa/loongarch32r/inst.c:60-122 | no register changes except the body's destination: R(1) for bl, R(rd) for every other body |
| Exec.PcAddu12iBody | nemu/src/isa/loongarch32r/inst.c:60 | R(rd) becomes s->pc + imm |
| Exec.Lu12iWBody | nemu/src/isa/loongarch32r/inst.c:61 | R(rd) becomes imm |
| Exec.OrBody | nemu/src/isa/loongarch32r/inst.c:62 | R(rd) becomes src1 or src2 |
| Exec.AddiWBody | nemu/src/isa/loongarch32r/inst.c:63 | R(rd) becomes src1 + imm modulo 2^32 |
| Exec.BlNextBody | nemu/src/isa/loongarch32r/inst.c:64 | R(1) becomes pc + 4 and s->dnpc becomes pc + (imm << 2); s->pc is kept |
| Exec.LdWBody | nemu/src/isa/loongarch32r/inst.c:65 | R(rd) becomes the four bytes at src1 + imm |
| Exec.LdHBody | nemu/src/isa/loongarch32r/inst.c:66 | R(rd) becomes the two bytes at src1 + imm, zero-extended |
| Exec.LdBBody | nemu/src/isa/loongarch32r/inst.c:67 | R(rd) becomes the four bytes at src1 + imm |
| Exec.LdBuBody | nemu/src/isa/loongarch32r/inst.c:68 | R(rd) becomes the four bytes at src1 + imm |
| Exec.LdHuBody | nemu/src/isa/loongarch32r/inst.c:69 | R(rd) becomes the two bytes at src1 + imm |
| Exec.StWBody | nemu/src/isa/loongarch32r/inst.c:71 | the four bytes of R(rd) are written at src1 + imm; no register changes |
| Exec.StHBody | nemu/src/isa/loongarch32r/inst.c:72 | two bytes of `SEXT(R(rd), 16)` are written at src1 + imm; no register changes |
| Exec.StBBody | nemu/src/isa/loongarch32r/inst.c:73 | two bytes of `SEXT(R(rd), 7)` are written at src1 + imm; no register changes |
| Exec.StWReadBack | nemu/src/isa/loongarch32r/inst.c:71 | a 4-byte load at the address st.w wrote returns R(rd) |
| Exec.StHReadBack | nemu/src/isa/loongarch32r/inst.c:72 | a 2-byte load at the address st.h wrote returns the low 16 bits of R(rd) |
| Exec.StBReadBack | nemu/src/isa/loongarch32r/inst.c:73 | a 2-byte load at the address st.b wrote returns the low 7 bits of R(rd), with bit 6 copied into bits 15..7 |
| Exec.AddWBody | nemu/src/isa/loongarch32r/inst.c:75 | R(rd) becomes src1 + src2 modulo 2^32 |
| Exec.SubWBody | nemu/src/isa/loongarch32r/inst.c:76 | R(rd) becomes src1 - src2 modulo 2^32 |
| Exec.DivWBody | nemu/src/isa/loongarch32r/inst.c:77 | R(rd) becomes the unsigned quotient src1 / src2 |
| Exec.ModWBody | nemu/src/isa/loongarch32r/inst.c:78 | R(rd) becomes the unsigned remainder src1 % src2 |
| Exec.DivWuBody | nemu/src/isa/loongarch32r/inst.c:79 | R(rd) becomes the unsigned quotient |
| Exec.ModWuBody | nemu/src/isa/loongarch32r/inst.c:80 | R(rd) becomes the unsigned remainder |
| Exec.SltuiBody | nemu/src/isa/loongarch32r/inst.c:82 | R(rd) becomes 1 when src1 < imm, unsigned; otherwise it is kept |
| Exec.SltiBody | nemu/src/isa/loongarch32r/inst.c:83 | R(rd) becomes 1 when src1 < imm, compared unsigned; otherwise it is kept |
| Exec.AndiBody | nemu/src/isa/loongarch32r/inst.c:84 | R(rd) becomes src1 and imm |
| Exec.OriBody | nemu/src/isa/loongarch32r/inst.c:85 | R(rd) becomes src1 or imm |
| Exec.XoriBody | nemu/src/isa/loongarch32r/inst.c:86 | R(rd) becomes src1 xor imm |
| Exec.MulWBody | nemu/src/isa/loongarch32r/inst.c:87 | R(rd) becomes the low 32 bits of src1 * src2 |
| Exec.MulhWBody | nemu/src/isa/loongarch32r/inst.c:88 | R(rd) becomes 0 |
| Exec.MulhWuBody | nemu/src/isa/loongarch32r/inst.c:89 | R(rd) becomes 0 |
| Exec.SllWBody | nemu/src/isa/loongarch32r/inst.c:90 | R(rd) becomes src1 << src2 |
| Exec.SrlWBody | nemu/src/isa/loongarch32r/inst.c:91 | R(rd) becomes src1 >> src2, shifting in zeros |
| Exec.SraWBody | nemu/src/isa/loongarch32r/inst.c:92 | R(rd) becomes src1 >> src2, also shifting in zeros |
| Exec.SlliWBody | nemu/src/isa/loongarch32r/inst.c:93 | R(rd) becomes src1 << (imm & 0xFF) |
| Exec.SrliWBody | nemu/src/isa/loongarch32r/inst.c:94 | R(rd) becomes src1 >> (imm & 0xFF) |
| Exec.SraiWBody | nemu/src/isa/loongarch32r/inst.c:95 | R(rd) becomes src1 >> (imm & 0xFF), shifting in zeros |
| Exec.XorBody | nemu/src/isa/loongarch32r/inst.c:98 | R(rd) becomes src1 xor src2 |
| Exec.SltBody | nemu/src/isa/loongarch32r/inst.c:99 | R(rd) becomes 1 when src1 < src2, compared unsigned; otherwise it is kept |
| Exec.SltuBody | nemu/src/isa/loongarch32r/inst.c:100 | R(rd) becomes 1 when src1 < src2; otherwise it is kept |
| Exec.AndBody | nemu/src/isa/loongarch32r/inst.c:101 | R(rd) becomes src1 and src2 |
| Exec.NorBody | nemu/src/isa/loongarch32r/inst.c:102 | R(rd) becomes the complement of src1 or src2 |
| Exec.BlPcBody | nemu/src/isa/loongarch32r/inst.c:104 | R(1) becomes pc + 4 and s->pc becomes pc + imm |
| Exec.BBody | nemu/src/isa/loongarch32r/inst.c:105 | s->pc becomes pc + imm; no register changes |
| Exec.JirlBody | nemu/src/isa/loongarch32r/inst.c:107 | R(rd) becomes pc + 4 and s->pc becomes src1 + imm |
| Exec.JirlTarget | nemu/src/isa/loongarch32r/inst.c:107 | the jump target uses the src1 read before the link is written, even when rj == rd |
| Exec.JirlOperands | nemu/src/isa/loongarch32r/inst.c:107 | for jirl, src1 is R(rj) and imm is simm16 |
| Exec.BeqBody | nemu/src/isa/loongarch32r/inst.c:108 | s->pc moves by imm when R(rd) == src1; no register changes |
| Exec.BneBody | nemu/src/isa/loongarch32r/inst.c:109 | s->pc moves by imm when R(rd) != src1 |
| Exec.BltBody | nemu/src/isa/loongarch32r/inst.c:110 | s->pc moves by imm when R(rd) > src1, compared unsigned |
| Exec.BgeBody | nemu/src/isa/loongarch32r/inst.c:111 | s->pc moves by imm when R(rd) <= src1, compared unsigned |
| Exec.BltuBody | nemu/src/isa/loongarch32r/inst.c:112 | s->pc moves by imm when R(rd) > src1 |
| Exec.BgeuBody | nemu/src/isa/loongarch32r/inst.c:113 | s->pc moves by imm when R(rd) <= src1 |
| Exec.DbarBody | nemu/src/isa/loongarch32r/inst.c:115 | nothing changes and the run continues |
| Exec.IbarBody | nemu/src/isa/loongarch32r/inst.c:116 | nothing changes and the run continues |
| Exec.BreakBody | nemu/src/isa/loongarch32r/inst.c:118 | the run stops with a trap carrying s->pc and R(4); no register changes |
| Exec.InvBody | nemu/src/isa/loongarch32r/inst.c:119 | the run stops as invalid at s->pc; no register changes |
| Exec.NormalOutcome | nemu/src/isa/loongarch32r/inst.c:60-119 | the run continues after every body except break and inv |
| Exec.TrapOutcome | nemu/src/isa/loongarch32r/inst.c:118 | a word traps with (s->pc, R(4)) exactly when its top 17 bits are those of break |
| Exec.InvalidOutcome | nemu/src/isa/loongarch32r/inst.c:119 | a word stops the run as invalid exactly when none of the lines above inv accepts it |
| Exec.StoreFootprint | nemu/src/isa/loongarch32r/inst.c:71-73 | a body changes no byte outside the bytes a store writes |
| Exec.MemoryOnlyByStores | nemu/src/isa/loongarch32r/inst.c:60-119 | every body except the three stores leaves memory unchanged |
| Exec.PcOnlyByJumps | nemu/src/isa/loongarch32r/inst.c:104-113 | s->pc changes only for the second BL, B, jirl and the conditional branches |
| Exec.DnpcOnlyByBl | nemu/src/isa/loongarch32r/inst.c:51-64 | s->dnpc stays s->snpc for every body except the first bl |
| Exec.NextDnpcIs | nemu/src/isa/loongarch32r/inst.c:51-64 | for a whole word, s->dnpc is pc + (simm26 << 2) when the top six bits are 010101; otherwise it is s->snpc |
| Exec.BlWord | nemu/src/isa/loongarch32r/inst.c:64 | a word runs the first bl body exactly when its top six bits are 010101 |
| Exec.BlImmediate | nemu/src/isa/loongarch32r/inst.c:64 | the bl body receives simm26 as imm |
| Exec.NeverRun | nemu/src/isa/loongarch32r/inst.c:80-104 | no word runs MOD.WU, SLTI, XORI, MULH.WU, SRAI.W or the second BL |
| Exec.DecodeExec | nemu/src/isa/loongarch32r/inst.c:48-125 | decode_exec on the objects. It returns 0 and leaves snpc and the word unchanged. The registers, the memory, s->pc, s->dnpc and the outcome become the selected body's effect on the decoded operands, followed by the reset of R(0) |
| Exec.Execute | nemu/src/isa/loongarch32r/inst.c:54-57 | one entry's body on given operands, followed by `R(0) = 0`: the registers, the memory, s->pc and s->dnpc take that body's values |
| Exec.WriteRegisters | nemu/src/isa/loongarch32r/inst.c:60-122 | the register file becomes the body's register write, followed by R(0) = 0 |
| Exec.WriteMemory | nemu/src/isa/loongarch32r/inst.c:71-73 | memory becomes the store's `Mw`, or stays the same for any other body |
| Exec.WritePc | nemu/src/isa/loongarch32r/inst.c:64-113 | s->pc and s->dnpc take the body's values; snpc and the word are kept |
| Memory.StoreFrame | nemu/src/isa/loongarch32r/inst.c:71-73 | an `Mw` changes no byte outside its footprint |
| Memory.StoreLanes | nemu/src/isa/loongarch32r/inst.c:71-73 | an `Mw` puts the value's bytes, least significant first, from the address upward |
| Memory.LoadStore | nemu/src/isa/loongarch32r/inst.c:65-73 | a load of the width just written returns the stored value, cut to that width |
| Memory.LoadBound | nemu/src/isa/loongarch32r/inst.c:66-69 | loads of 1 and 2 bytes are zero-extended |
| Memory.Ram.Write | nemu/src/isa/loongarch32r/inst.c:71-73 | `Mw` updates memory in place to the `Store` of the old contents |
| Registers.RegLenIs | nemu/src/isa/loongarch32r/reg.c:19-25 | the name table has 32 entries, and reg_len is 32 |
| Registers.NamesDistinct | nemu/src/isa/loongarch32r/reg.c:19-24 | no two registers have the same name, so the first match is the only one |
| Registers.NamesShort | nemu/src/isa/loongarch32r/reg.c:19-24 | every name has one or two characters and none is "pc" |
| Registers.Contains | nemu/src/isa/loongarch32r/reg.c:44 | `strstr(s, t) != NULL`: true exactly when t occurs in s at some position |
| Registers.NoNameContainsPc | nemu/src/isa/loongarch32r/reg.c:19-24 | no register name contains "pc", so the pc fallback never hides a register |
| Registers.RegStr2Val | nemu/src/isa/loongarch32r/reg.c:37-49 | an exact register name gives that register's value with success. Otherwise, a string containing "pc" gives cpu.pc with success. Any other string gives 0 with failure |

## Left out

- `isa_exec_once` (inst.c:127-130) and `inst_fetch` leave out the
  instruction fetch. The `Decode` object holds the fetched word, with
  `snpc` already 4 past `pc`.
- `Mr` and `Mw` are implemented outside these files. Memory is a total
  map from 32-bit addresses to bytes, with no address translation, no
  device I/O and no bounds check.
- NEMUTRAP and INV set the emulator's global state and print a message.
  That side effect is modelled only as the `Outcome` value.
- Exec.DecodeExec: requires `Defined`, which excludes the operands on
  which the C body is undefined behaviour:
  - a division or remainder by zero;
  - a shift by 32 or more, including an SLLI/SRLI/SRAI amount that comes
    from a sign-extended uimm5.

  The model says nothing about those inputs.
- MULH.W and MULH.WU are modelled through the 32-bit result they store
  (0). The 64-bit intermediate is not modelled.
- `isa_reg_display` (reg.c:27-35) only prints, so it is not modelled.
- The bounds check inside `gpr(i)` is not modelled. `RegStr2Val` only
  indexes the 32-entry register file with indices below 32.
- The per-body lemmas (`Exec.*Body`) are stated over the operands
  `src1`, `src2` and `imm`. The link to the instruction word goes through
  `Operand.DecodeOperand` and `Exec.DecodeExec`.
- `pattern_decode` and the `INSTPAT` macros live in `cpu/decode.h`, which
  is not part of this model. Each entry's (mask, key) pair is written out
  and proved equal to the pair derived from the line's pattern
  (`Decoder.PairIsPatternDecode`). The pattern strings drop the source's
  blanks. The right shift by the count of trailing `?` that
  `pattern_decode` applies to mask, key and word is not modelled: it
  gives the same accept test.
