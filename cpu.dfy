/**
 * The emulator state decode_exec and the register lookup work on: the
 * global `cpu` (32 general registers and the pc) and the `Decode` record
 * of the instruction in flight.
 */
module CpuState {

  /** `cpu`: gpr[0 .. 31] and pc. */
  class Cpu {
    var gpr: array<bv32>
    var pc: bv32

    constructor (regs: seq<bv32>, pc0: bv32)
      requires |regs| == 32
      ensures fresh(gpr) && gpr.Length == 32 && gpr[..] == regs && pc == pc0
    {
      gpr := new bv32[32](i requires 0 <= i < 32 => regs[i]);
      pc := pc0;
    }
  }

  /**
   * `Decode`: the pc of the instruction, the address after it (snpc), the
   * address execution continues at (dnpc) and the fetched word.
   */
  class Decode {
    var pc: bv32
    var snpc: bv32
    var dnpc: bv32
    var inst: bv32

    constructor (pc0: bv32, inst0: bv32)
      ensures pc == pc0 && snpc == pc0 + 4 && dnpc == pc0 + 4 && inst == inst0
    {
      pc, snpc, dnpc, inst := pc0, pc0 + 4, pc0 + 4, inst0;
    }
  }
}
