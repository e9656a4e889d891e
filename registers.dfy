/**
 * The register-name table of the LoongArch32r emulator and
 * isa_reg_str2val, which the expression evaluator of the debugger uses to
 * turn a register name into its current value.
 */
module Registers {
  import opened CpuState

  /** regs[]: the ABI name of each general register, in register-number order. */
  const Names: seq<string> := [
     "0", "ra", "tp", "sp", "a0", "a1", "a2", "a3",
    "a4", "a5", "a6", "a7", "t0", "t1", "t2", "t3",
    "t4", "t5", "t6", "t7", "t8", "rs", "fp", "s0",
    "s1", "s2", "s3", "s4", "s5", "s6", "s7", "s8"
  ]

  /** reg_len = ARRLEN(regs). */
  const RegLen: int := |Names|

  /** `t` occurs in `s` starting at position k. */
  predicate OccursAt(s: string, t: string, k: nat) {
    k + |t| <= |s| && s[k..k + |t|] == t
  }

  /** strstr(s, t) != NULL: `t` occurs in `s` starting at some position. */
  function Contains(s: string, t: string): (b: bool)
    ensures b <==> exists k: nat :: OccursAt(s, t, k)
  {
    if |t| > |s| then false
    else if s[..|t|] == t then assert OccursAt(s, t, 0); true
    else
      var r := Contains(s[1..], t);
      assert forall k: nat :: OccursAt(s, t, k) ==> k > 0 && OccursAt(s[1..], t, k - 1);
      assert forall k: nat :: OccursAt(s[1..], t, k) ==> OccursAt(s, t, k + 1) by {
        forall k: nat | OccursAt(s[1..], t, k) ensures OccursAt(s, t, k + 1) {
          assert s[1..][k..k + |t|] == s[k + 1..k + 1 + |t|];
        }
      }
      r
  }

  /** The table has one name per general register. */
  lemma RegLenIs()
    ensures RegLen == 32
  {
    assert |Names| == 32;
  }

  /** No two registers share a name, so a name picks out at most one register. */
  lemma {:induction false} NamesDistinct()
    ensures forall i, j :: 0 <= i < j < RegLen ==> Names[i] != Names[j]
  {
    forall i, j | 0 <= i < j < RegLen
      ensures Names[i] != Names[j]
    {
      NamesShort(i);
      NamesShort(j);
      NamesAt(i);
      NamesAt(j);
    }
  }

  /** Every name has one or two characters and is not "pc". */
  lemma NamesShort(i: int)
    requires 0 <= i < RegLen
    ensures 1 <= |Names[i]| <= 2 && Names[i] != "pc"
  {
  }

  /**
   * The name of register i is fixed by i: a one-character name only for
   * register 0, and otherwise the letter and the digit or second letter
   * of the table.
   */
  lemma NamesAt(i: int)
    requires 0 <= i < RegLen
    ensures |Names[i]| == 1 <==> i == 0
    ensures i > 0 ==> Names[i][0] == Group(i) && Names[i][1] == Member(i)
  {
  }

  /** The first letter of the name of register i (1 <= i < 32). */
  function Group(i: int): char
    requires 0 < i < 32
  {
    if i <= 3 then (if i == 1 then 'r' else if i == 2 then 't' else 's')
    else if i <= 11 then 'a'
    else if i <= 20 then 't'
    else if i == 21 then 'r'
    else if i == 22 then 'f'
    else 's'
  }

  /** The second character of the name of register i (1 <= i < 32). */
  function Member(i: int): char
    requires 0 < i < 32
  {
    if i == 1 then 'a'
    else if i == 2 then 'p'
    else if i == 3 then 'p'
    else if i <= 11 then ('0' as int + i - 4) as char
    else if i <= 20 then ('0' as int + i - 12) as char
    else if i == 21 then 's'
    else if i == 22 then 'p'
    else ('0' as int + i - 23) as char
  }

  /** No register name contains "pc", so the pc fallback never hides a register. */
  lemma NoNameContainsPc()
    ensures forall i :: 0 <= i < RegLen ==> !Contains(Names[i], "pc")
  {
    forall i | 0 <= i < RegLen
      ensures !Contains(Names[i], "pc")
    {
      NamesShort(i);
      forall k: nat
        ensures !OccursAt(Names[i], "pc", k)
      {
        if k == 0 && |Names[i]| == 2 {
          assert Names[i][0..2] == Names[i];
        }
      }
    }
  }

  /**
   * isa_reg_str2val: the value of the register named `s` if there is one,
   * else cpu.pc when `s` contains "pc" anywhere; `success` is false (and
   * the result 0) only when neither applies. Nothing is written.
   */
  method RegStr2Val(s: string, cpu: Cpu) returns (v: bv32, success: bool)
    requires cpu.gpr.Length == RegLen
    ensures forall i :: 0 <= i < RegLen && Names[i] == s ==> success && v == cpu.gpr[i]
    ensures s !in Names && Contains(s, "pc") ==> success && v == cpu.pc
    ensures s !in Names && !Contains(s, "pc") ==> !success && v == 0
  {
    NamesDistinct();
    success := true;
    for i := 0 to RegLen
      invariant forall j :: 0 <= j < i ==> Names[j] != s
    {
      if s == Names[i] {
        return cpu.gpr[i], success;
      }
    }
    if Contains(s, "pc") {
      return cpu.pc, success;
    }
    success := false;
    return 0, success;
  }
}
