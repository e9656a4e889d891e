/**
 * The INSTPAT table of decode_exec: 53 patterns tried in their order of
 * appearance, each with the (mask, key) pair pattern_decode derives
 * from it, the operand format it passes to decode_operand and the
 * instruction body it runs. The first entry whose pair accepts the word
 * wins; the last entry, `inv`, is all `?` and accepts every word.
 */
module Decoder {
  import opened Bits
  import opened Pattern
  import opened Operand

  /**
   * The instruction bodies of the table. Two pairs of lines share a body:
   * the second `or` (line 97) repeats the first and the second ADDI.w
   * (line 81) repeats addi.w. The two bl lines differ: the first sets
   * dnpc, the second sets pc.
   */
  datatype Op =
    | PcAddu12i | Lu12iW | Or | AddiW | BlNext
    | LdW | LdH | LdB | LdBu | LdHu | StW | StH | StB
    | AddW | SubW | DivW | ModW | DivWu | ModWu | Sltui | Slti
    | Andi | Ori | Xori | MulW | MulhW | MulhWu
    | SllW | SrlW | SraW | SlliW | SrliW | SraiW
    | Xor | Slt | Sltu | And | Nor
    | BlPc | B | Jirl | Beq | Bne | Blt | Bge | Bltu | Bgeu
    | Dbar | Ibar | Break | Inv

  /** One INSTPAT line: the pair compiled from its pattern and its body; its format is FormatFor(op). */
  datatype Entry = Entry(mask: bv32, key: bv32, op: Op)

  /**
   * The third column of the table: the operand format decode_operand is
   * given. The lines that share a body (or, addi.w) also share the format,
   * so the format is a function of the body.
   */
  function FormatFor(op: Op): Format {
    match op
    case PcAddu12i | Lu12iW => F1RI20
    case AddiW | LdW | LdH | LdB | LdBu | LdHu | StW | StH | StB | Sltui | Slti => F2RI12
    case Andi | Ori | Xori => F2RUI12
    case BlNext | BlPc | B => FI26
    case Jirl | Beq | Bne | Blt | Bge | Bltu | Bgeu => F2RI16
    case SlliW | SrliW | SraiW => F2RUI5
    case Dbar | Ibar => FLanzan
    case Break | Inv => FN
    case _ => F3R
  }

  /** The number of INSTPAT lines. */
  const Count: nat := 53

  /** The pattern string of entry `i`, with the blanks of the source removed. */
  function PatternOf(i: nat): string
    requires i < Count
  {
    match i
    case 0 => "0001110?????????????????????????"
    case 1 => "0001010?????????????????????????"
    case 2 => "00000000000101010???????????????"
    case 3 => "0000001010??????????????????????"
    case 4 => "010101??????????????????????????"
    case 5 => "0010100010??????????????????????"
    case 6 => "0010100001??????????????????????"
    case 7 => "0010100000??????????????????????"
    case 8 => "0010101000??????????????????????"
    case 9 => "0010101001??????????????????????"
    case 10 => "0010100110??????????????????????"
    case 11 => "0010100101??????????????????????"
    case 12 => "0010100100??????????????????????"
    case 13 => "00000000000100000???????????????"
    case 14 => "00000000000100010???????????????"
    case 15 => "00000000001000000???????????????"
    case 16 => "00000000001000001???????????????"
    case 17 => "00000000001000010???????????????"
    case 18 => "00000000001000001???????????????"
    case 19 => "0000001010??????????????????????"
    case 20 => "0000001001??????????????????????"
    case 21 => "0000001001??????????????????????"
    case 22 => "0000001101??????????????????????"
    case 23 => "0000001110??????????????????????"
    case 24 => "0000001101??????????????????????"
    case 25 => "00000000000111000???????????????"
    case 26 => "00000000000111001???????????????"
    case 27 => "00000000000111001???????????????"
    case 28 => "00000000000101110???????????????"
    case 29 => "00000000000101111???????????????"
    case 30 => "00000000000110000???????????????"
    case 31 => "00000000010000001???????????????"
    case 32 => "00000000010001001???????????????"
    case 33 => "00000000010001001???????????????"
    case 34 => "00000000000101010???????????????"
    case 35 => "00000000000101011???????????????"
    case 36 => "00000000000100100???????????????"
    case 37 => "00000000000100101???????????????"
    case 38 => "00000000000101001???????????????"
    case 39 => "00000000000101000???????????????"
    case 40 => "010101??????????????????????????"
    case 41 => "010100??????????????????????????"
    case 42 => "010011??????????????????????????"
    case 43 => "010110??????????????????????????"
    case 44 => "010111??????????????????????????"
    case 45 => "011000??????????????????????????"
    case 46 => "011001??????????????????????????"
    case 47 => "011010??????????????????????????"
    case 48 => "011011??????????????????????????"
    case 49 => "00111000001110100???????????????"
    case 50 => "00111000001110101???????????????"
    case 51 => "00000000001010100???????????????"
    case _ => "????????????????????????????????"
  }

  /** Entry `i` of the table, in source order (0 is line 60, 52 is line 119). */
  function EntryAt(i: int): Entry {
    match i
    case 0 => Entry(0xFE00_0000, 0x1C00_0000, PcAddu12i)   // line 60, pcaddu12i
    case 1 => Entry(0xFE00_0000, 0x1400_0000, Lu12iW)   // line 61, LU12I.W
    case 2 => Entry(0xFFFF_8000, 0x0015_0000, Or)   // line 62, or
    case 3 => Entry(0xFFC0_0000, 0x0280_0000, AddiW)   // line 63, addi.w
    case 4 => Entry(0xFC00_0000, 0x5400_0000, BlNext)   // line 64, bl
    case 5 => Entry(0xFFC0_0000, 0x2880_0000, LdW)   // line 65, ld.w
    case 6 => Entry(0xFFC0_0000, 0x2840_0000, LdH)   // line 66, ld.h
    case 7 => Entry(0xFFC0_0000, 0x2800_0000, LdB)   // line 67, ld.b
    case 8 => Entry(0xFFC0_0000, 0x2A00_0000, LdBu)   // line 68, ld.bu
    case 9 => Entry(0xFFC0_0000, 0x2A40_0000, LdHu)   // line 69, ld.hu
    case 10 => Entry(0xFFC0_0000, 0x2980_0000, StW)   // line 71, st.w
    case 11 => Entry(0xFFC0_0000, 0x2940_0000, StH)   // line 72, st.h
    case 12 => Entry(0xFFC0_0000, 0x2900_0000, StB)   // line 73, st.b
    case 13 => Entry(0xFFFF_8000, 0x0010_0000, AddW)   // line 75, add.w
    case 14 => Entry(0xFFFF_8000, 0x0011_0000, SubW)   // line 76, sub.w
    case 15 => Entry(0xFFFF_8000, 0x0020_0000, DivW)   // line 77, DIV.W
    case 16 => Entry(0xFFFF_8000, 0x0020_8000, ModW)   // line 78, MOD.W
    case 17 => Entry(0xFFFF_8000, 0x0021_0000, DivWu)   // line 79, DIV.WU
    case 18 => Entry(0xFFFF_8000, 0x0020_8000, ModWu)   // line 80, MOD.WU
    case 19 => Entry(0xFFC0_0000, 0x0280_0000, AddiW)   // line 81, ADDI.w
    case 20 => Entry(0xFFC0_0000, 0x0240_0000, Sltui)   // line 82, SLTUI
    case 21 => Entry(0xFFC0_0000, 0x0240_0000, Slti)   // line 83, SLTI
    case 22 => Entry(0xFFC0_0000, 0x0340_0000, Andi)   // line 84, ANDI
    case 23 => Entry(0xFFC0_0000, 0x0380_0000, Ori)   // line 85, ORI
    case 24 => Entry(0xFFC0_0000, 0x0340_0000, Xori)   // line 86, XORI
    case 25 => Entry(0xFFFF_8000, 0x001C_0000, MulW)   // line 87, MUL.W
    case 26 => Entry(0xFFFF_8000, 0x001C_8000, MulhW)   // line 88, MULH.W
    case 27 => Entry(0xFFFF_8000, 0x001C_8000, MulhWu)   // line 89, MULH.WU
    case 28 => Entry(0xFFFF_8000, 0x0017_0000, SllW)   // line 90, SLL.W
    case 29 => Entry(0xFFFF_8000, 0x0017_8000, SrlW)   // line 91, SRL.W
    case 30 => Entry(0xFFFF_8000, 0x0018_0000, SraW)   // line 92, SRA.W
    case 31 => Entry(0xFFFF_8000, 0x0040_8000, SlliW)   // line 93, SLLI.W
    case 32 => Entry(0xFFFF_8000, 0x0044_8000, SrliW)   // line 94, SRLI.W
    case 33 => Entry(0xFFFF_8000, 0x0044_8000, SraiW)   // line 95, SRAI.W
    case 34 => Entry(0xFFFF_8000, 0x0015_0000, Or)   // line 97, or
    case 35 => Entry(0xFFFF_8000, 0x0015_8000, Xor)   // line 98, xor
    case 36 => Entry(0xFFFF_8000, 0x0012_0000, Slt)   // line 99, SLT
    case 37 => Entry(0xFFFF_8000, 0x0012_8000, Sltu)   // line 100, SLTU
    case 38 => Entry(0xFFFF_8000, 0x0014_8000, And)   // line 101, AND
    case 39 => Entry(0xFFFF_8000, 0x0014_0000, Nor)   // line 102, NOR
    case 40 => Entry(0xFC00_0000, 0x5400_0000, BlPc)   // line 104, BL
    case 41 => Entry(0xFC00_0000, 0x5000_0000, B)   // line 105, B
    case 42 => Entry(0xFC00_0000, 0x4C00_0000, Jirl)   // line 107, jirl
    case 43 => Entry(0xFC00_0000, 0x5800_0000, Beq)   // line 108, BEQ
    case 44 => Entry(0xFC00_0000, 0x5C00_0000, Bne)   // line 109, BNE
    case 45 => Entry(0xFC00_0000, 0x6000_0000, Blt)   // line 110, BLT
    case 46 => Entry(0xFC00_0000, 0x6400_0000, Bge)   // line 111, BGE
    case 47 => Entry(0xFC00_0000, 0x6800_0000, Bltu)   // line 112, BLTU
    case 48 => Entry(0xFC00_0000, 0x6C00_0000, Bgeu)   // line 113, BGEU
    case 49 => Entry(0xFFFF_8000, 0x383A_0000, Dbar)   // line 115, DBAR
    case 50 => Entry(0xFFFF_8000, 0x383A_8000, Ibar)   // line 116, IBAR
    case 51 => Entry(0xFFFF_8000, 0x002A_0000, Break)   // line 118, break
    case _ => Entry(0x0000_0000, 0x0000_0000, Inv)   // line 119, inv
  }

  /** INSTPAT's test: the word agrees with the entry's key on the entry's mask. */
  predicate Hit(e: Entry, w: bv32) {
    (w & e.mask) == e.key
  }

  /**
   * The first of the entries t(i) .. t(n - 1) that accepts `w`, or n when
   * none does: the INSTPAT lines are tried top to bottom and the first hit
   * jumps past the rest.
   */
  function FirstHitFrom(t: int -> Entry, n: nat, w: bv32, i: nat): nat
    requires i <= n
    decreases n - i
  {
    if i == n then i
    else if Hit(t(i), w) then i
    else FirstHitFrom(t, n, w, i + 1)
  }

  /** FirstHitFrom stops at a hit, if one lies ahead, and passes only entries that miss. */
  lemma {:induction false} FirstHitFromFirst(t: int -> Entry, n: nat, w: bv32, i: nat)
    requires i <= n
    ensures i <= FirstHitFrom(t, n, w, i) <= n
    ensures FirstHitFrom(t, n, w, i) < n ==> Hit(t(FirstHitFrom(t, n, w, i)), w)
    ensures forall j :: i <= j < FirstHitFrom(t, n, w, i) ==> !Hit(t(j), w)
    decreases n - i
  {
    if i < n && !Hit(t(i), w) {
      FirstHitFromFirst(t, n, w, i + 1);
    }
  }

  /** A hit at k with only misses from i up to it is where FirstHitFrom stops. */
  lemma {:induction false} FirstHitFromIs(t: int -> Entry, n: nat, w: bv32, i: nat, k: nat)
    requires i <= k < n && Hit(t(k), w)
    requires forall j :: i <= j < k ==> !Hit(t(j), w)
    ensures FirstHitFrom(t, n, w, i) == k
    decreases n - i
  {
    if i < k {
      FirstHitFromIs(t, n, w, i + 1, k);
    }
  }

  /** The entry decode_exec runs for `w`. */
  function Select(w: bv32): (i: nat)
    ensures i < Count
  {
    var t := EntryAt;
    InvHits(w);
    assert Hit(t(52), w);
    FirstHitFromFirst(t, Count, w, 0);
    FirstHitFrom(t, Count, w, 0)
  }

  /**
   * The selected entry accepts `w` and no earlier entry does. There always
   * is one, because `inv` accepts every word.
   */
  lemma SelectFirst(w: bv32)
    ensures Select(w) < Count && Hit(EntryAt(Select(w)), w)
    ensures forall j :: 0 <= j < Select(w) ==> !Hit(EntryAt(j), w)
  {
    var t := EntryAt;
    InvHits(w);
    assert Hit(t(52), w);
    FirstHitFromFirst(t, Count, w, 0);
    assert Hit(t(Select(w)), w);
    forall j | 0 <= j < Select(w)
      ensures !Hit(EntryAt(j), w)
    {
      assert !Hit(t(j), w);
    }
  }

  /** The last entry, `inv`, accepts every word. */
  lemma InvHits(w: bv32)
    ensures Hit(EntryAt(52), w)
  {
    assert EntryAt(52) == Entry(0, 0, Inv);
  }

  /**
   * decode_exec's loop over the table: try the entries in order and stop
   * at the first one that accepts the word.
   */
  method FindEntry(w: bv32) returns (i: nat)
    ensures i < Count && Hit(EntryAt(i), w)
    ensures forall j :: 0 <= j < i ==> !Hit(EntryAt(j), w)
    ensures i == Select(w)
  {
    SelectFirst(w);
    i := 0;
    while !Hit(EntryAt(i), w)
      invariant i <= Select(w)
      decreases Count - i
    {
      i := i + 1;
    }
    assert i == Select(w);
  }

  /** Index `j` of the table is one of 0 .. 52. */
  lemma Index(j: int)
    requires 0 <= j < Count
    ensures j == 0 || j == 1 || j == 2 || j == 3 || j == 4 || j == 5 || j == 6 || j == 7 || j == 8 || j == 9 || j == 10 || j == 11 || j == 12 || j == 13 || j == 14 || j == 15 || j == 16 || j == 17 || j == 18 || j == 19 || j == 20 || j == 21 || j == 22 || j == 23 || j == 24 || j == 25 || j == 26 || j == 27 || j == 28 || j == 29 || j == 30 || j == 31 || j == 32 || j == 33 || j == 34 || j == 35 || j == 36 || j == 37 || j == 38 || j == 39 || j == 40 || j == 41 || j == 42 || j == 43 || j == 44 || j == 45 || j == 46 || j == 47 || j == 48 || j == 49 || j == 50 || j == 51 || j == 52
  {}

  /** Every mask constrains only bits among the top 17 (0xFFFF_8000). */
  lemma MasksWithinTop17(j: int)
    requires 0 <= j < Count
    ensures EntryAt(j).mask & 0xFFFF_8000 == EntryAt(j).mask
  {
    Index(j);
  }

  /** Whether an entry accepts a word depends only on the word's top 17 bits. */
  lemma HitTop17(e: Entry, w: bv32)
    requires e.mask & 0xFFFF_8000 == e.mask
    ensures Hit(e, w) == Hit(e, w & 0xFFFF_8000)
  {}

  /** So the entry decode_exec picks is fixed by bits 31..15: the low 15 bits are operand fields only. */
  lemma SelectTop17(w: bv32)
    ensures Select(w) == Select(w & 0xFFFF_8000)
  {
    forall j | 0 <= j < Count ensures Hit(EntryAt(j), w) == Hit(EntryAt(j), w & 0xFFFF_8000) {
      MasksWithinTop17(j);
      HitTop17(EntryAt(j), w);
    }
    SelectFirst(w);
    SelectIs(w & 0xFFFF_8000, Select(w));
  }

  /** An entry with the same pair as an earlier one is never the one selected. */
  lemma LaterDuplicate(i: nat, j: nat, w: bv32)
    requires i < j < Count
    requires EntryAt(i).mask == EntryAt(j).mask && EntryAt(i).key == EntryAt(j).key
    ensures Select(w) != j
  {
    SelectFirst(w);
    if Select(w) == j {
      assert Hit(EntryAt(i), w);
    }
  }

  /**
   * The eight duplicated patterns of the table can never be selected:
   * line 97 repeats line 62, 81 repeats 63, 104 repeats 64, 80 repeats 78,
   * 83 repeats 82, 86 repeats 84, 89 repeats 88 and 95 repeats 94.
   */
  lemma Shadowed(w: bv32)
    ensures !IsShadowed(Select(w))
  {
    Line97Shadowed(w);
    Line81Shadowed(w);
    Line104Shadowed(w);
    Line80Shadowed(w);
    Line83Shadowed(w);
    Line86Shadowed(w);
    Line89Shadowed(w);
    Line95Shadowed(w);
  }

  /** The indices of the eight later duplicates. */
  predicate IsShadowed(i: nat) {
    i == 18 || i == 19 || i == 21 || i == 24 || i == 27 || i == 33 || i == 34 || i == 40
  }

  lemma Line97Shadowed(w: bv32) ensures Select(w) != 34 { LaterDuplicate(2, 34, w); }
  lemma Line81Shadowed(w: bv32) ensures Select(w) != 19 { LaterDuplicate(3, 19, w); }
  lemma Line104Shadowed(w: bv32) ensures Select(w) != 40 { LaterDuplicate(4, 40, w); }
  lemma Line80Shadowed(w: bv32) ensures Select(w) != 18 { LaterDuplicate(16, 18, w); }
  lemma Line83Shadowed(w: bv32) ensures Select(w) != 21 { LaterDuplicate(20, 21, w); }
  lemma Line86Shadowed(w: bv32) ensures Select(w) != 24 { LaterDuplicate(22, 24, w); }
  lemma Line89Shadowed(w: bv32) ensures Select(w) != 27 { LaterDuplicate(26, 27, w); }
  lemma Line95Shadowed(w: bv32) ensures Select(w) != 33 { LaterDuplicate(32, 33, w); }

  /** The bodies MOD.WU, SLTI, XORI, MULH.WU, SRAI.W and the second BL sit only on shadowed lines. */
  lemma OnlyOnShadowedLines(i: nat)
    requires i < Count
    ensures EntryAt(i).op in {ModWu, Slti, Xori, MulhWu, SraiW, BlPc} ==> IsShadowed(i)
  {
    Index(i);
  }

  /** bl (line 64), break (line 118) and inv (line 119) each sit on one line only. */
  lemma OpLines(i: int)
    requires 0 <= i < Count
    ensures EntryAt(i).op == BlNext <==> i == 4
    ensures EntryAt(i).op == Break <==> i == 51
    ensures EntryAt(i).op == Inv <==> i == 52
  {
    Index(i);
  }

  /** So those bodies never run. */
  lemma UnreachableBodies(w: bv32)
    ensures EntryAt(Select(w)).op !in {ModWu, Slti, Xori, MulhWu, SraiW, BlPc}
  {
    Shadowed(w);
    OnlyOnShadowedLines(Select(w));
  }

  /** The last entry, inv, is selected exactly when no other entry accepts the word. */
  lemma SelectInv(w: bv32)
    ensures Select(w) == 52 <==> forall j :: 0 <= j < 52 ==> !Hit(EntryAt(j), w)
  {
    SelectFirst(w);
    if forall j :: 0 <= j < 52 ==> !Hit(EntryAt(j), w) {
      InvHits(w);
      SelectIs(w, 52);
    }
  }

  /** A word accepted by entry `i` and by no earlier entry selects entry `i`. */
  lemma SelectIs(w: bv32, i: nat)
    requires i < Count && Hit(EntryAt(i), w)
    requires forall j :: 0 <= j < i ==> !Hit(EntryAt(j), w)
    ensures Select(w) == i
  {
    var t := EntryAt;
    assert Hit(t(i), w);
    forall j | 0 <= j < i
      ensures !Hit(t(j), w)
    {
      assert !Hit(EntryAt(j), w);
    }
    FirstHitFromIs(t, Count, w, 0, i);
  }

  /** Every entry that is not a later duplicate is selected by its own key. */
  lemma Reachable(i: nat)
    requires i < Count && !IsShadowed(i)
    ensures Select(EntryAt(i).key) == i
  {
    if i <= 3 { ReachableIn0(i); }
    else if i <= 7 { ReachableIn4(i); }
    else if i <= 11 { ReachableIn8(i); }
    else if i <= 15 { ReachableIn12(i); }
    else if i <= 22 { ReachableIn16(i); }
    else if i <= 28 { ReachableIn23(i); }
    else if i <= 32 { ReachableIn29(i); }
    else if i <= 38 { ReachableIn35(i); }
    else if i <= 43 { ReachableIn39(i); }
    else if i <= 47 { ReachableIn44(i); }
    else if i <= 51 { ReachableIn48(i); }
    else { ReachableIn52(i); }
  }

  lemma ReachableIn0(i: nat)
    requires 0 <= i <= 3 && !IsShadowed(i)
    ensures Select(EntryAt(i).key) == i
  {
    if i == 0 { Selects0(); }
    else if i == 1 { Selects1(); }
    else if i == 2 { Selects2(); }
    else { assert i == 3; Selects3(); }
  }

  lemma ReachableIn4(i: nat)
    requires 4 <= i <= 7 && !IsShadowed(i)
    ensures Select(EntryAt(i).key) == i
  {
    if i == 4 { Selects4(); }
    else if i == 5 { Selects5(); }
    else if i == 6 { Selects6(); }
    else { assert i == 7; Selects7(); }
  }

  lemma ReachableIn8(i: nat)
    requires 8 <= i <= 11 && !IsShadowed(i)
    ensures Select(EntryAt(i).key) == i
  {
    if i == 8 { Selects8(); }
    else if i == 9 { Selects9(); }
    else if i == 10 { Selects10(); }
    else { assert i == 11; Selects11(); }
  }

  lemma ReachableIn12(i: nat)
    requires 12 <= i <= 15 && !IsShadowed(i)
    ensures Select(EntryAt(i).key) == i
  {
    if i == 12 { Selects12(); }
    else if i == 13 { Selects13(); }
    else if i == 14 { Selects14(); }
    else { assert i == 15; Selects15(); }
  }

  lemma ReachableIn16(i: nat)
    requires 16 <= i <= 22 && !IsShadowed(i)
    ensures Select(EntryAt(i).key) == i
  {
    if i == 16 { Selects16(); }
    else if i == 17 { Selects17(); }
    else if i == 20 { Selects20(); }
    else { assert i == 22; Selects22(); }
  }

  lemma ReachableIn23(i: nat)
    requires 23 <= i <= 28 && !IsShadowed(i)
    ensures Select(EntryAt(i).key) == i
  {
    if i == 23 { Selects23(); }
    else if i == 25 { Selects25(); }
    else if i == 26 { Selects26(); }
    else { assert i == 28; Selects28(); }
  }

  lemma ReachableIn29(i: nat)
    requires 29 <= i <= 32 && !IsShadowed(i)
    ensures Select(EntryAt(i).key) == i
  {
    if i == 29 { Selects29(); }
    else if i == 30 { Selects30(); }
    else if i == 31 { Selects31(); }
    else { assert i == 32; Selects32(); }
  }

  lemma ReachableIn35(i: nat)
    requires 33 <= i <= 38 && !IsShadowed(i)
    ensures Select(EntryAt(i).key) == i
  {
    if i == 35 { Selects35(); }
    else if i == 36 { Selects36(); }
    else if i == 37 { Selects37(); }
    else { assert i == 38; Selects38(); }
  }

  lemma ReachableIn39(i: nat)
    requires 39 <= i <= 43 && !IsShadowed(i)
    ensures Select(EntryAt(i).key) == i
  {
    if i == 39 { Selects39(); }
    else if i == 41 { Selects41(); }
    else if i == 42 { Selects42(); }
    else { assert i == 43; Selects43(); }
  }

  lemma ReachableIn44(i: nat)
    requires 44 <= i <= 47 && !IsShadowed(i)
    ensures Select(EntryAt(i).key) == i
  {
    if i == 44 { Selects44(); }
    else if i == 45 { Selects45(); }
    else if i == 46 { Selects46(); }
    else { assert i == 47; Selects47(); }
  }

  lemma ReachableIn48(i: nat)
    requires 48 <= i <= 51 && !IsShadowed(i)
    ensures Select(EntryAt(i).key) == i
  {
    if i == 48 { Selects48(); }
    else if i == 49 { Selects49(); }
    else if i == 50 { Selects50(); }
    else { assert i == 51; Selects51(); }
  }

  lemma ReachableIn52(i: nat)
    requires 52 <= i <= 52 && !IsShadowed(i)
    ensures Select(EntryAt(i).key) == i
  {
    assert i == 52;
    Selects52();
  }

  lemma Selects0() ensures Select(EntryAt(0).key) == 0 { SelectIs(0x1C00_0000, 0); }
  lemma Selects1()
    ensures Select(EntryAt(1).key) == 1
  {
    forall j | 0 <= j < 1 ensures !Hit(EntryAt(j), 0x1400_0000) { Index(j); }
    SelectIs(0x1400_0000, 1);
  }

  lemma Selects2()
    ensures Select(EntryAt(2).key) == 2
  {
    forall j | 0 <= j < 2 ensures !Hit(EntryAt(j), 0x0015_0000) { Index(j); }
    SelectIs(0x0015_0000, 2);
  }

  lemma Selects3()
    ensures Select(EntryAt(3).key) == 3
  {
    forall j | 0 <= j < 3 ensures !Hit(EntryAt(j), 0x0280_0000) { Index(j); }
    SelectIs(0x0280_0000, 3);
  }

  lemma Selects4()
    ensures Select(EntryAt(4).key) == 4
  {
    forall j | 0 <= j < 4 ensures !Hit(EntryAt(j), 0x5400_0000) { Index(j); }
    SelectIs(0x5400_0000, 4);
  }

  lemma Selects5()
    ensures Select(EntryAt(5).key) == 5
  {
    forall j | 0 <= j < 5 ensures !Hit(EntryAt(j), 0x2880_0000) { Index(j); }
    SelectIs(0x2880_0000, 5);
  }

  lemma Selects6()
    ensures Select(EntryAt(6).key) == 6
  {
    forall j | 0 <= j < 6 ensures !Hit(EntryAt(j), 0x2840_0000) { Index(j); }
    SelectIs(0x2840_0000, 6);
  }

  lemma Selects7()
    ensures Select(EntryAt(7).key) == 7
  {
    forall j | 0 <= j < 7 ensures !Hit(EntryAt(j), 0x2800_0000) { Index(j); }
    SelectIs(0x2800_0000, 7);
  }

  lemma Selects8()
    ensures Select(EntryAt(8).key) == 8
  {
    forall j | 0 <= j < 8 ensures !Hit(EntryAt(j), 0x2A00_0000) { Index(j); }
    SelectIs(0x2A00_0000, 8);
  }

  lemma Selects9()
    ensures Select(EntryAt(9).key) == 9
  {
    forall j | 0 <= j < 9 ensures !Hit(EntryAt(j), 0x2A40_0000) { Index(j); }
    SelectIs(0x2A40_0000, 9);
  }

  lemma Selects10()
    ensures Select(EntryAt(10).key) == 10
  {
    forall j | 0 <= j < 10 ensures !Hit(EntryAt(j), 0x2980_0000) { Index(j); }
    SelectIs(0x2980_0000, 10);
  }

  lemma Selects11()
    ensures Select(EntryAt(11).key) == 11
  {
    forall j | 0 <= j < 11 ensures !Hit(EntryAt(j), 0x2940_0000) { Index(j); }
    SelectIs(0x2940_0000, 11);
  }

  lemma Selects12()
    ensures Select(EntryAt(12).key) == 12
  {
    forall j | 0 <= j < 12 ensures !Hit(EntryAt(j), 0x2900_0000) { Index(j); }
    SelectIs(0x2900_0000, 12);
  }

  lemma Selects13()
    ensures Select(EntryAt(13).key) == 13
  {
    forall j | 0 <= j < 13 ensures !Hit(EntryAt(j), 0x0010_0000) { Index(j); }
    SelectIs(0x0010_0000, 13);
  }

  lemma Selects14()
    ensures Select(EntryAt(14).key) == 14
  {
    forall j | 0 <= j < 14 ensures !Hit(EntryAt(j), 0x0011_0000) { Index(j); }
    SelectIs(0x0011_0000, 14);
  }

  lemma Selects15()
    ensures Select(EntryAt(15).key) == 15
  {
    forall j | 0 <= j < 15 ensures !Hit(EntryAt(j), 0x0020_0000) { Index(j); }
    SelectIs(0x0020_0000, 15);
  }

  lemma Selects16()
    ensures Select(EntryAt(16).key) == 16
  {
    forall j | 0 <= j < 16 ensures !Hit(EntryAt(j), 0x0020_8000) { Index(j); }
    SelectIs(0x0020_8000, 16);
  }

  lemma Selects17()
    ensures Select(EntryAt(17).key) == 17
  {
    forall j | 0 <= j < 17 ensures !Hit(EntryAt(j), 0x0021_0000) { Index(j); }
    SelectIs(0x0021_0000, 17);
  }

  lemma Selects20()
    ensures Select(EntryAt(20).key) == 20
  {
    forall j | 0 <= j < 20 ensures !Hit(EntryAt(j), 0x0240_0000) { Index(j); }
    SelectIs(0x0240_0000, 20);
  }

  lemma Selects22()
    ensures Select(EntryAt(22).key) == 22
  {
    forall j | 0 <= j < 22 ensures !Hit(EntryAt(j), 0x0340_0000) { Index(j); }
    SelectIs(0x0340_0000, 22);
  }

  lemma Selects23()
    ensures Select(EntryAt(23).key) == 23
  {
    forall j | 0 <= j < 23 ensures !Hit(EntryAt(j), 0x0380_0000) { Index(j); }
    SelectIs(0x0380_0000, 23);
  }

  lemma Selects25()
    ensures Select(EntryAt(25).key) == 25
  {
    forall j | 0 <= j < 25 ensures !Hit(EntryAt(j), 0x001C_0000) { Index(j); }
    SelectIs(0x001C_0000, 25);
  }

  lemma Selects26()
    ensures Select(EntryAt(26).key) == 26
  {
    forall j | 0 <= j < 26 ensures !Hit(EntryAt(j), 0x001C_8000) { Index(j); }
    SelectIs(0x001C_8000, 26);
  }

  lemma Selects28()
    ensures Select(EntryAt(28).key) == 28
  {
    forall j | 0 <= j < 28 ensures !Hit(EntryAt(j), 0x0017_0000) { Index(j); }
    SelectIs(0x0017_0000, 28);
  }

  lemma Selects29()
    ensures Select(EntryAt(29).key) == 29
  {
    forall j | 0 <= j < 29 ensures !Hit(EntryAt(j), 0x0017_8000) { Index(j); }
    SelectIs(0x0017_8000, 29);
  }

  lemma Selects30()
    ensures Select(EntryAt(30).key) == 30
  {
    forall j | 0 <= j < 30 ensures !Hit(EntryAt(j), 0x0018_0000) { Index(j); }
    SelectIs(0x0018_0000, 30);
  }

  lemma Selects31()
    ensures Select(EntryAt(31).key) == 31
  {
    forall j | 0 <= j < 31 ensures !Hit(EntryAt(j), 0x0040_8000) { Index(j); }
    SelectIs(0x0040_8000, 31);
  }

  lemma Selects32()
    ensures Select(EntryAt(32).key) == 32
  {
    forall j | 0 <= j < 32 ensures !Hit(EntryAt(j), 0x0044_8000) { Index(j); }
    SelectIs(0x0044_8000, 32);
  }

  lemma Selects35()
    ensures Select(EntryAt(35).key) == 35
  {
    forall j | 0 <= j < 35 ensures !Hit(EntryAt(j), 0x0015_8000) { Index(j); }
    SelectIs(0x0015_8000, 35);
  }

  lemma Selects36()
    ensures Select(EntryAt(36).key) == 36
  {
    forall j | 0 <= j < 36 ensures !Hit(EntryAt(j), 0x0012_0000) { Index(j); }
    SelectIs(0x0012_0000, 36);
  }

  lemma Selects37()
    ensures Select(EntryAt(37).key) == 37
  {
    forall j | 0 <= j < 37 ensures !Hit(EntryAt(j), 0x0012_8000) { Index(j); }
    SelectIs(0x0012_8000, 37);
  }

  lemma Selects38()
    ensures Select(EntryAt(38).key) == 38
  {
    forall j | 0 <= j < 38 ensures !Hit(EntryAt(j), 0x0014_8000) { Index(j); }
    SelectIs(0x0014_8000, 38);
  }

  lemma Selects39()
    ensures Select(EntryAt(39).key) == 39
  {
    forall j | 0 <= j < 39 ensures !Hit(EntryAt(j), 0x0014_0000) { Index(j); }
    SelectIs(0x0014_0000, 39);
  }

  lemma Selects41()
    ensures Select(EntryAt(41).key) == 41
  {
    forall j | 0 <= j < 41 ensures !Hit(EntryAt(j), 0x5000_0000) { Index(j); }
    SelectIs(0x5000_0000, 41);
  }

  lemma Selects42()
    ensures Select(EntryAt(42).key) == 42
  {
    forall j | 0 <= j < 42 ensures !Hit(EntryAt(j), 0x4C00_0000) { Index(j); }
    SelectIs(0x4C00_0000, 42);
  }

  lemma Selects43()
    ensures Select(EntryAt(43).key) == 43
  {
    forall j | 0 <= j < 43 ensures !Hit(EntryAt(j), 0x5800_0000) { Index(j); }
    SelectIs(0x5800_0000, 43);
  }

  lemma Selects44()
    ensures Select(EntryAt(44).key) == 44
  {
    forall j | 0 <= j < 44 ensures !Hit(EntryAt(j), 0x5C00_0000) { Index(j); }
    SelectIs(0x5C00_0000, 44);
  }

  lemma Selects45()
    ensures Select(EntryAt(45).key) == 45
  {
    forall j | 0 <= j < 45 ensures !Hit(EntryAt(j), 0x6000_0000) { Index(j); }
    SelectIs(0x6000_0000, 45);
  }

  lemma Selects46()
    ensures Select(EntryAt(46).key) == 46
  {
    forall j | 0 <= j < 46 ensures !Hit(EntryAt(j), 0x6400_0000) { Index(j); }
    SelectIs(0x6400_0000, 46);
  }

  lemma Selects47()
    ensures Select(EntryAt(47).key) == 47
  {
    forall j | 0 <= j < 47 ensures !Hit(EntryAt(j), 0x6800_0000) { Index(j); }
    SelectIs(0x6800_0000, 47);
  }

  lemma Selects48()
    ensures Select(EntryAt(48).key) == 48
  {
    forall j | 0 <= j < 48 ensures !Hit(EntryAt(j), 0x6C00_0000) { Index(j); }
    SelectIs(0x6C00_0000, 48);
  }

  lemma Selects49()
    ensures Select(EntryAt(49).key) == 49
  {
    forall j | 0 <= j < 49 ensures !Hit(EntryAt(j), 0x383A_0000) { Index(j); }
    SelectIs(0x383A_0000, 49);
  }

  lemma Selects50()
    ensures Select(EntryAt(50).key) == 50
  {
    forall j | 0 <= j < 50 ensures !Hit(EntryAt(j), 0x383A_8000) { Index(j); }
    SelectIs(0x383A_8000, 50);
  }

  lemma Selects51()
    ensures Select(EntryAt(51).key) == 51
  {
    forall j | 0 <= j < 51 ensures !Hit(EntryAt(j), 0x002A_0000) { Index(j); }
    SelectIs(0x002A_0000, 51);
  }

  lemma Selects52()
    ensures Select(EntryAt(52).key) == 52
  {
    forall j | 0 <= j < 52 ensures !Hit(EntryAt(j), 0x0000_0000) { Index(j); }
    SelectIs(0x0000_0000, 52);
  }

  /**
   * The top 17 bits 00000000001010100 select the break entry (line 118),
   * whatever the low 15 bits hold, and nothing else does.
   */
  lemma SelectBreak(w: bv32)
    ensures Select(w) == 51 <==> w & 0xFFFF_8000 == 0x002A_0000
  {
    assert EntryAt(51) == Entry(0xFFFF_8000, 0x002A_0000, Break);
    SelectFirst(w);
    if w & 0xFFFF_8000 == 0x002A_0000 {
      SelectTop17(w);
      Selects51();
    }
  }

  /**
   * A word whose top six bits are 010101 selects the bl entry (line 64):
   * the four entries before it all want other top bits.
   */
  lemma SelectBl(w: bv32)
    ensures Select(w) == 4 <==> w & 0xFC00_0000 == 0x5400_0000
  {
    if Select(w) == 4 {
      BlSelected(w);
    }
    if w & 0xFC00_0000 == 0x5400_0000 {
      BlSelects(w);
    }
  }

  lemma BlSelected(w: bv32)
    requires Select(w) == 4
    ensures w & 0xFC00_0000 == 0x5400_0000
  {
    SelectFirst(w);
    assert EntryAt(4) == Entry(0xFC00_0000, 0x5400_0000, BlNext);
  }

  lemma BlSelects(w: bv32)
    requires w & 0xFC00_0000 == 0x5400_0000
    ensures Select(w) == 4
  {
    assert EntryAt(4) == Entry(0xFC00_0000, 0x5400_0000, BlNext);
    assert !Hit(EntryAt(0), w) && !Hit(EntryAt(1), w) && !Hit(EntryAt(2), w) && !Hit(EntryAt(3), w);
    SelectIs(w, 4);
  }

  /** A pair agrees with a 32-symbol pattern symbol by symbol. */
  ghost predicate PairOk(p: string, mask: bv32, key: bv32) {
    |p| == 32 && forall k: bv5 :: Compiled(p, mask, key, k)
  }

  /** Entry `i`'s pair agrees with its pattern. */
  ghost predicate EntryCompiled(i: nat)
    requires i < Count
  {
    PairOk(PatternOf(i), EntryAt(i).mask, EntryAt(i).key)
  }

  lemma Pair0() ensures PairOk("0001110?????????????????????????", 0xFE00_0000, 0x1C00_0000) {}
  lemma Pair1() ensures PairOk("0001010?????????????????????????", 0xFE00_0000, 0x1400_0000) {}
  lemma Pair2() ensures PairOk("00000000000101010???????????????", 0xFFFF_8000, 0x0015_0000) {}
  lemma Pair3() ensures PairOk("0000001010??????????????????????", 0xFFC0_0000, 0x0280_0000) {}
  lemma Pair4() ensures PairOk("010101??????????????????????????", 0xFC00_0000, 0x5400_0000) {}
  lemma Pair5() ensures PairOk("0010100010??????????????????????", 0xFFC0_0000, 0x2880_0000) {}
  lemma Pair6() ensures PairOk("0010100001??????????????????????", 0xFFC0_0000, 0x2840_0000) {}
  lemma Pair7() ensures PairOk("0010100000??????????????????????", 0xFFC0_0000, 0x2800_0000) {}
  lemma Pair8() ensures PairOk("0010101000??????????????????????", 0xFFC0_0000, 0x2A00_0000) {}
  lemma Pair9() ensures PairOk("0010101001??????????????????????", 0xFFC0_0000, 0x2A40_0000) {}
  lemma Pair10() ensures PairOk("0010100110??????????????????????", 0xFFC0_0000, 0x2980_0000) {}
  lemma Pair11() ensures PairOk("0010100101??????????????????????", 0xFFC0_0000, 0x2940_0000) {}
  lemma Pair12() ensures PairOk("0010100100??????????????????????", 0xFFC0_0000, 0x2900_0000) {}
  lemma Pair13() ensures PairOk("00000000000100000???????????????", 0xFFFF_8000, 0x0010_0000) {}
  lemma Pair14() ensures PairOk("00000000000100010???????????????", 0xFFFF_8000, 0x0011_0000) {}
  lemma Pair15() ensures PairOk("00000000001000000???????????????", 0xFFFF_8000, 0x0020_0000) {}
  lemma Pair16() ensures PairOk("00000000001000001???????????????", 0xFFFF_8000, 0x0020_8000) {}
  lemma Pair17() ensures PairOk("00000000001000010???????????????", 0xFFFF_8000, 0x0021_0000) {}
  lemma Pair18() ensures PairOk("00000000001000001???????????????", 0xFFFF_8000, 0x0020_8000) {}
  lemma Pair19() ensures PairOk("0000001010??????????????????????", 0xFFC0_0000, 0x0280_0000) {}
  lemma Pair20() ensures PairOk("0000001001??????????????????????", 0xFFC0_0000, 0x0240_0000) {}
  lemma Pair21() ensures PairOk("0000001001??????????????????????", 0xFFC0_0000, 0x0240_0000) {}
  lemma Pair22() ensures PairOk("0000001101??????????????????????", 0xFFC0_0000, 0x0340_0000) {}
  lemma Pair23() ensures PairOk("0000001110??????????????????????", 0xFFC0_0000, 0x0380_0000) {}
  lemma Pair24() ensures PairOk("0000001101??????????????????????", 0xFFC0_0000, 0x0340_0000) {}
  lemma Pair25() ensures PairOk("00000000000111000???????????????", 0xFFFF_8000, 0x001C_0000) {}
  lemma Pair26() ensures PairOk("00000000000111001???????????????", 0xFFFF_8000, 0x001C_8000) {}
  lemma Pair27() ensures PairOk("00000000000111001???????????????", 0xFFFF_8000, 0x001C_8000) {}
  lemma Pair28() ensures PairOk("00000000000101110???????????????", 0xFFFF_8000, 0x0017_0000) {}
  lemma Pair29() ensures PairOk("00000000000101111???????????????", 0xFFFF_8000, 0x0017_8000) {}
  lemma Pair30() ensures PairOk("00000000000110000???????????????", 0xFFFF_8000, 0x0018_0000) {}
  lemma Pair31() ensures PairOk("00000000010000001???????????????", 0xFFFF_8000, 0x0040_8000) {}
  lemma Pair32() ensures PairOk("00000000010001001???????????????", 0xFFFF_8000, 0x0044_8000) {}
  lemma Pair33() ensures PairOk("00000000010001001???????????????", 0xFFFF_8000, 0x0044_8000) {}
  lemma Pair34() ensures PairOk("00000000000101010???????????????", 0xFFFF_8000, 0x0015_0000) {}
  lemma Pair35() ensures PairOk("00000000000101011???????????????", 0xFFFF_8000, 0x0015_8000) {}
  lemma Pair36() ensures PairOk("00000000000100100???????????????", 0xFFFF_8000, 0x0012_0000) {}
  lemma Pair37() ensures PairOk("00000000000100101???????????????", 0xFFFF_8000, 0x0012_8000) {}
  lemma Pair38() ensures PairOk("00000000000101001???????????????", 0xFFFF_8000, 0x0014_8000) {}
  lemma Pair39() ensures PairOk("00000000000101000???????????????", 0xFFFF_8000, 0x0014_0000) {}
  lemma Pair40() ensures PairOk("010101??????????????????????????", 0xFC00_0000, 0x5400_0000) {}
  lemma Pair41() ensures PairOk("010100??????????????????????????", 0xFC00_0000, 0x5000_0000) {}
  lemma Pair42() ensures PairOk("010011??????????????????????????", 0xFC00_0000, 0x4C00_0000) {}
  lemma Pair43() ensures PairOk("010110??????????????????????????", 0xFC00_0000, 0x5800_0000) {}
  lemma Pair44() ensures PairOk("010111??????????????????????????", 0xFC00_0000, 0x5C00_0000) {}
  lemma Pair45() ensures PairOk("011000??????????????????????????", 0xFC00_0000, 0x6000_0000) {}
  lemma Pair46() ensures PairOk("011001??????????????????????????", 0xFC00_0000, 0x6400_0000) {}
  lemma Pair47() ensures PairOk("011010??????????????????????????", 0xFC00_0000, 0x6800_0000) {}
  lemma Pair48() ensures PairOk("011011??????????????????????????", 0xFC00_0000, 0x6C00_0000) {}
  lemma Pair49() ensures PairOk("00111000001110100???????????????", 0xFFFF_8000, 0x383A_0000) {}
  lemma Pair50() ensures PairOk("00111000001110101???????????????", 0xFFFF_8000, 0x383A_8000) {}
  lemma Pair51() ensures PairOk("00000000001010100???????????????", 0xFFFF_8000, 0x002A_0000) {}
  lemma Pair52() ensures PairOk("????????????????????????????????", 0x0000_0000, 0x0000_0000) {}

  lemma Entry0() ensures EntryCompiled(0) { Pair0(); }
  lemma Entry1() ensures EntryCompiled(1) { Pair1(); }
  lemma Entry2() ensures EntryCompiled(2) { Pair2(); }
  lemma Entry3() ensures EntryCompiled(3) { Pair3(); }
  lemma Entry4() ensures EntryCompiled(4) { Pair4(); }
  lemma Entry5() ensures EntryCompiled(5) { Pair5(); }
  lemma Entry6() ensures EntryCompiled(6) { Pair6(); }
  lemma Entry7() ensures EntryCompiled(7) { Pair7(); }
  lemma Entry8() ensures EntryCompiled(8) { Pair8(); }
  lemma Entry9() ensures EntryCompiled(9) { Pair9(); }
  lemma Entry10() ensures EntryCompiled(10) { Pair10(); }
  lemma Entry11() ensures EntryCompiled(11) { Pair11(); }
  lemma Entry12() ensures EntryCompiled(12) { Pair12(); }
  lemma Entry13() ensures EntryCompiled(13) { Pair13(); }
  lemma Entry14() ensures EntryCompiled(14) { Pair14(); }
  lemma Entry15() ensures EntryCompiled(15) { Pair15(); }
  lemma Entry16() ensures EntryCompiled(16) { Pair16(); }
  lemma Entry17() ensures EntryCompiled(17) { Pair17(); }
  lemma Entry18() ensures EntryCompiled(18) { Pair18(); }
  lemma Entry19() ensures EntryCompiled(19) { Pair19(); }
  lemma Entry20() ensures EntryCompiled(20) { Pair20(); }
  lemma Entry21() ensures EntryCompiled(21) { Pair21(); }
  lemma Entry22() ensures EntryCompiled(22) { Pair22(); }
  lemma Entry23() ensures EntryCompiled(23) { Pair23(); }
  lemma Entry24() ensures EntryCompiled(24) { Pair24(); }
  lemma Entry25() ensures EntryCompiled(25) { Pair25(); }
  lemma Entry26() ensures EntryCompiled(26) { Pair26(); }
  lemma Entry27() ensures EntryCompiled(27) { Pair27(); }
  lemma Entry28() ensures EntryCompiled(28) { Pair28(); }
  lemma Entry29() ensures EntryCompiled(29) { Pair29(); }
  lemma Entry30() ensures EntryCompiled(30) { Pair30(); }
  lemma Entry31() ensures EntryCompiled(31) { Pair31(); }
  lemma Entry32() ensures EntryCompiled(32) { Pair32(); }
  lemma Entry33() ensures EntryCompiled(33) { Pair33(); }
  lemma Entry34() ensures EntryCompiled(34) { Pair34(); }
  lemma Entry35() ensures EntryCompiled(35) { Pair35(); }
  lemma Entry36() ensures EntryCompiled(36) { Pair36(); }
  lemma Entry37() ensures EntryCompiled(37) { Pair37(); }
  lemma Entry38() ensures EntryCompiled(38) { Pair38(); }
  lemma Entry39() ensures EntryCompiled(39) { Pair39(); }
  lemma Entry40() ensures EntryCompiled(40) { Pair40(); }
  lemma Entry41() ensures EntryCompiled(41) { Pair41(); }
  lemma Entry42() ensures EntryCompiled(42) { Pair42(); }
  lemma Entry43() ensures EntryCompiled(43) { Pair43(); }
  lemma Entry44() ensures EntryCompiled(44) { Pair44(); }
  lemma Entry45() ensures EntryCompiled(45) { Pair45(); }
  lemma Entry46() ensures EntryCompiled(46) { Pair46(); }
  lemma Entry47() ensures EntryCompiled(47) { Pair47(); }
  lemma Entry48() ensures EntryCompiled(48) { Pair48(); }
  lemma Entry49() ensures EntryCompiled(49) { Pair49(); }
  lemma Entry50() ensures EntryCompiled(50) { Pair50(); }
  lemma Entry51() ensures EntryCompiled(51) { Pair51(); }
  lemma Entry52() ensures EntryCompiled(52) { Pair52(); }

  /**
   * The hand-written pair of entry `i` is exactly what pattern_decode
   * computes from the entry's pattern.
   */
  lemma PairIsPatternDecode(i: nat)
    requires i < Count
    ensures Mask(PatternOf(i)) == EntryAt(i).mask && Key(PatternOf(i)) == EntryAt(i).key
  {
    EntryCompiledAt(i);
    EntryPairIsDecode(EntryAt(i), PatternOf(i));
  }

  lemma EntryPairIsDecode(e: Entry, p: string)
    requires PairOk(p, e.mask, e.key)
    ensures Mask(p) == e.mask && Key(p) == e.key
  {
    CompilesTo(p, e.mask, e.key);
  }

  /** Entry `i` accepts a word exactly when its pattern matches the word symbol by symbol. */
  lemma HitMatches(i: nat, w: bv32)
    requires i < Count
    ensures Hit(EntryAt(i), w) <==> Matches(PatternOf(i), w)
  {
    EntryCompiledAt(i);
    EntryHitMatches(EntryAt(i), PatternOf(i), w);
  }

  lemma EntryHitMatches(e: Entry, p: string, w: bv32)
    requires PairOk(p, e.mask, e.key)
    ensures Hit(e, w) <==> Matches(p, w)
  {
    PairMatches(e, p, w);
    HitIs(e, w);
  }

  lemma PairMatches(e: Entry, p: string, w: bv32)
    requires PairOk(p, e.mask, e.key)
    ensures (w & e.mask) == e.key <==> Matches(p, w)
  {
    PairCorrect(p, e.mask, e.key, w);
  }

  lemma HitIs(e: Entry, w: bv32)
    ensures Hit(e, w) <==> (w & e.mask) == e.key
  {}

  /**
   * Dispatch in terms of the patterns: the selected entry's pattern
   * matches the word, and no earlier pattern does.
   */
  lemma SelectMatches(w: bv32)
    ensures Matches(PatternOf(Select(w)), w)
    ensures forall j :: 0 <= j < Select(w) ==> !Matches(PatternOf(j), w)
  {
    SelectFirst(w);
    HitMatches(Select(w), w);
    forall j | 0 <= j < Select(w) ensures !Matches(PatternOf(j), w) {
      HitMatches(j, w);
    }
  }

  /** Every entry's pair is the compiled form of its pattern. */
  lemma EntryCompiledAt(i: nat)
    requires i < Count
    ensures EntryCompiled(i)
  {
    if i < 4 { EntryCompiledIn0(i); }
    else if i < 8 { EntryCompiledIn4(i); }
    else if i < 12 { EntryCompiledIn8(i); }
    else if i < 16 { EntryCompiledIn12(i); }
    else if i < 20 { EntryCompiledIn16(i); }
    else if i < 24 { EntryCompiledIn20(i); }
    else if i < 28 { EntryCompiledIn24(i); }
    else if i < 32 { EntryCompiledIn28(i); }
    else if i < 36 { EntryCompiledIn32(i); }
    else if i < 40 { EntryCompiledIn36(i); }
    else if i < 44 { EntryCompiledIn40(i); }
    else if i < 48 { EntryCompiledIn44(i); }
    else if i < 52 { EntryCompiledIn48(i); }
    else { EntryCompiledIn52(i); }
  }

  lemma EntryCompiledIn0(i: nat)
    requires 0 <= i < 4
    ensures EntryCompiled(i)
  {
    if i == 0 { Entry0(); }
    else if i == 1 { Entry1(); }
    else if i == 2 { Entry2(); }
    else { Entry3(); }
  }

  lemma EntryCompiledIn4(i: nat)
    requires 4 <= i < 8
    ensures EntryCompiled(i)
  {
    if i == 4 { Entry4(); }
    else if i == 5 { Entry5(); }
    else if i == 6 { Entry6(); }
    else { Entry7(); }
  }

  lemma EntryCompiledIn8(i: nat)
    requires 8 <= i < 12
    ensures EntryCompiled(i)
  {
    if i == 8 { Entry8(); }
    else if i == 9 { Entry9(); }
    else if i == 10 { Entry10(); }
    else { Entry11(); }
  }

  lemma EntryCompiledIn12(i: nat)
    requires 12 <= i < 16
    ensures EntryCompiled(i)
  {
    if i == 12 { Entry12(); }
    else if i == 13 { Entry13(); }
    else if i == 14 { Entry14(); }
    else { Entry15(); }
  }

  lemma EntryCompiledIn16(i: nat)
    requires 16 <= i < 20
    ensures EntryCompiled(i)
  {
    if i == 16 { Entry16(); }
    else if i == 17 { Entry17(); }
    else if i == 18 { Entry18(); }
    else { Entry19(); }
  }

  lemma EntryCompiledIn20(i: nat)
    requires 20 <= i < 24
    ensures EntryCompiled(i)
  {
    if i == 20 { Entry20(); }
    else if i == 21 { Entry21(); }
    else if i == 22 { Entry22(); }
    else { Entry23(); }
  }

  lemma EntryCompiledIn24(i: nat)
    requires 24 <= i < 28
    ensures EntryCompiled(i)
  {
    if i == 24 { Entry24(); }
    else if i == 25 { Entry25(); }
    else if i == 26 { Entry26(); }
    else { Entry27(); }
  }

  lemma EntryCompiledIn28(i: nat)
    requires 28 <= i < 32
    ensures EntryCompiled(i)
  {
    if i == 28 { Entry28(); }
    else if i == 29 { Entry29(); }
    else if i == 30 { Entry30(); }
    else { Entry31(); }
  }

  lemma EntryCompiledIn32(i: nat)
    requires 32 <= i < 36
    ensures EntryCompiled(i)
  {
    if i == 32 { Entry32(); }
    else if i == 33 { Entry33(); }
    else if i == 34 { Entry34(); }
    else { Entry35(); }
  }

  lemma EntryCompiledIn36(i: nat)
    requires 36 <= i < 40
    ensures EntryCompiled(i)
  {
    if i == 36 { Entry36(); }
    else if i == 37 { Entry37(); }
    else if i == 38 { Entry38(); }
    else { Entry39(); }
  }

  lemma EntryCompiledIn40(i: nat)
    requires 40 <= i < 44
    ensures EntryCompiled(i)
  {
    if i == 40 { Entry40(); }
    else if i == 41 { Entry41(); }
    else if i == 42 { Entry42(); }
    else { Entry43(); }
  }

  lemma EntryCompiledIn44(i: nat)
    requires 44 <= i < 48
    ensures EntryCompiled(i)
  {
    if i == 44 { Entry44(); }
    else if i == 45 { Entry45(); }
    else if i == 46 { Entry46(); }
    else { Entry47(); }
  }

  lemma EntryCompiledIn48(i: nat)
    requires 48 <= i < 52
    ensures EntryCompiled(i)
  {
    if i == 48 { Entry48(); }
    else if i == 49 { Entry49(); }
    else if i == 50 { Entry50(); }
    else { Entry51(); }
  }

  lemma EntryCompiledIn52(i: nat)
    requires 52 <= i < 53
    ensures EntryCompiled(i)
  {
    assert i == 52;
    Entry52();
  }
}
