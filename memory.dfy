/**
 * Guest memory as the instruction bodies see it through Mr and Mw: a
 * little-endian byte map addressed by 32-bit addresses, read and written
 * 1, 2 or 4 bytes at a time. Every address holds some byte; address
 * arithmetic wraps at 2^32, as it does on the 32-bit `vaddr_t`.
 */
module Memory {

  /** The contents of memory: the byte at every address. */
  type Bytes = bv32 -> bv8

  /** The access widths Mr and Mw accept. */
  type Width = n: nat | n == 1 || n == 2 || n == 4 witness 1

  /** The byte at address `a`. */
  function ByteAt(m: Bytes, a: bv32): bv8 {
    m(a)
  }

  /** Byte `i` of `v`, counting from the least significant one (i in 0 .. 3). */
  function Lane(v: bv32, i: nat): bv8
    requires i < 4
  {
    match i
    case 0 => (v & 0xFF) as bv8
    case 1 => ((v >> 8) & 0xFF) as bv8
    case 2 => ((v >> 16) & 0xFF) as bv8
    case _ => (v >> 24) as bv8
  }

  /** The low `len` bytes of `v`: what a `len`-byte store keeps of it. */
  function Truncate(v: bv32, len: Width): bv32
  {
    if len == 1 then v & 0xFF else if len == 2 then v & 0xFFFF else v
  }

  /** Mr(a, len): the `len` bytes from `a` upward, least significant first, zero-extended. */
  function Load(m: Bytes, a: bv32, len: Width): bv32
  {
    var b0 := ByteAt(m, a) as bv32;
    if len == 1 then b0
    else
      var b1 := ByteAt(m, a + 1) as bv32;
      if len == 2 then b0 | (b1 << 8)
      else b0 | (b1 << 8) | ((ByteAt(m, a + 2) as bv32) << 16) | ((ByteAt(m, a + 3) as bv32) << 24)
  }

  /** Mw(a, len, v): the low `len` bytes of `v` written from `a` upward, least significant first. */
  function Store(m: Bytes, a: bv32, len: Width, v: bv32): Bytes
  {
    b =>
      if b == a then Lane(v, 0)
      else if len >= 2 && b == a + 1 then Lane(v, 1)
      else if len == 4 && b == a + 2 then Lane(v, 2)
      else if len == 4 && b == a + 3 then Lane(v, 3)
      else m(b)
  }

  /** Whether `b` is one of the `len` addresses from `a` upward (wrapping at 2^32). */
  predicate Within(a: bv32, len: Width, b: bv32)
  {
    b == a || (len >= 2 && b == a + 1) || (len == 4 && (b == a + 2 || b == a + 3))
  }

  /** A store leaves every byte outside its footprint as it was. */
  lemma StoreFrame(m: Bytes, a: bv32, len: Width, v: bv32, b: bv32)
    requires !Within(a, len, b)
    ensures ByteAt(Store(m, a, len, v), b) == ByteAt(m, b)
  {}

  /** Each byte of the footprint holds the matching byte of the stored value. */
  lemma StoreLanes(m: Bytes, a: bv32, len: Width, v: bv32)
    ensures ByteAt(Store(m, a, len, v), a) == Lane(v, 0)
    ensures len >= 2 ==> ByteAt(Store(m, a, len, v), a + 1) == Lane(v, 1)
    ensures len == 4 ==> ByteAt(Store(m, a, len, v), a + 2) == Lane(v, 2)
    ensures len == 4 ==> ByteAt(Store(m, a, len, v), a + 3) == Lane(v, 3)
  {
    assert a != a + 1 && a != a + 2 && a != a + 3;
    assert a + 1 != a + 2 && a + 1 != a + 3 && a + 2 != a + 3;
  }

  /** Reading back what was just stored gives the stored value, cut to the width. */
  lemma LoadStore(m: Bytes, a: bv32, len: Width, v: bv32)
    ensures Load(Store(m, a, len, v), a, len) == Truncate(v, len)
  {
    StoreLanes(m, a, len, v);
    Reassemble(v, len);
  }

  /** Putting the low `len` lanes of a word back together gives its low `len` bytes. */
  lemma Reassemble(v: bv32, len: Width)
    ensures len == 1 ==> Lane(v, 0) as bv32 == Truncate(v, len)
    ensures len == 2 ==> Lane(v, 0) as bv32 | ((Lane(v, 1) as bv32) << 8) == Truncate(v, len)
    ensures len == 4 ==> Lane(v, 0) as bv32 | ((Lane(v, 1) as bv32) << 8) | ((Lane(v, 2) as bv32) << 16) | ((Lane(v, 3) as bv32) << 24) == Truncate(v, len)
  {}

  /** A store of `len` bytes followed by a load never sees bits above the width. */
  lemma LoadBound(m: Bytes, a: bv32, len: Width)
    ensures len == 1 ==> Load(m, a, len) <= 0xFF
    ensures len == 2 ==> Load(m, a, len) <= 0xFFFF
  {}

  /**
   * The memory the emulator's Mw updates in place. Reading is the function
   * Load on the current bytes.
   */
  class Ram {
    var bytes: Bytes

    constructor (init: Bytes)
      ensures bytes == init
    {
      bytes := init;
    }

    /** Mw(a, len, v). */
    method Write(a: bv32, len: Width, v: bv32)
      modifies this
      ensures bytes == Store(old(bytes), a, len, v)
    {
      bytes := Store(bytes, a, len, v);
    }
  }
}
