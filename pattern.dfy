/**
 * Instruction patterns: strings over `0`, `1` and `?`, one symbol per
 * instruction bit. NEMU's INSTPAT compiles a pattern into a (mask, key)
 * pair and accepts a word `w` when `(w & mask) == key`. The symbols are
 * aligned at the right: the last symbol stands for bit 0, the one before
 * it for bit 1, and so on, so a pattern shorter than 32 symbols leaves the
 * top bits of the word unconstrained. The blanks that group the symbols in
 * the source are cosmetic and are left out of the strings here.
 */
module Pattern {
  import opened Bits

  /** Whether pattern symbol `c` accepts bit value `b`. */
  predicate Accepts(c: char, b: bool) {
    c == '?' || (c == '1') == b
  }

  /**
   * Symbol-by-symbol matching: the last symbol of `p` is checked against
   * bit 0 of `w`, the one before it against bit 1, and so on; bits beyond
   * the pattern's length are not looked at.
   */
  ghost predicate Matches(p: string, w: bv32) {
    forall k: bv5 :: k as int < |p| ==> Accepts(p[|p| - 1 - k as int], Bit(w, k))
  }

  /** The bits a pattern constrains (NEMU's `mask`, before the right shift). */
  function Mask(p: string): bv32
    decreases |p|
  {
    if |p| == 0 then 0 else (Mask(p[..|p| - 1]) << 1) | (if p[|p| - 1] == '?' then 0 else 1)
  }

  /** The values those bits must have (NEMU's `key`, before the right shift). */
  function Key(p: string): bv32
    decreases |p|
  {
    if |p| == 0 then 0 else (Key(p[..|p| - 1]) << 1) | (if p[|p| - 1] == '1' then 1 else 0)
  }

  lemma CompiledBit(p: string, k: bv5)
    requires |p| <= 32
    ensures Compiled(p, Mask(p), Key(p), k)
  {
    MaskBit(p, k);
    KeyBit(p, k);
  }

  /** Bit `k` of `mask` and of `key` is what compiling `p` puts there. */
  predicate Compiled(p: string, mask: bv32, key: bv32, k: bv5)
    requires |p| <= 32
  {
    && Bit(mask, k) == (k as int < |p| && p[|p| - 1 - k as int] != '?')
    && Bit(key, k) == (k as int < |p| && p[|p| - 1 - k as int] == '1')
  }

  /**
   * Any (mask, key) pair that agrees with `p` bit by bit accepts exactly
   * the words `p` matches.
   */
  lemma PairCorrect(p: string, mask: bv32, key: bv32, w: bv32)
    requires |p| <= 32
    requires forall k: bv5 :: Compiled(p, mask, key, k)
    ensures (w & mask) == key <==> Matches(p, w)
  {
    if (w & mask) == key {
      forall k: bv5 | k as int < |p| ensures Accepts(p[|p| - 1 - k as int], Bit(w, k)) {
        SymbolBit(p, mask, key, w, k);
      }
    }
    if Matches(p, w) {
      forall k: bv5 ensures Bit(w & mask, k) == Bit(key, k) {
        SymbolBit(p, mask, key, w, k);
      }
      Extensionality(w & mask, key);
    }
  }

  /** One bit of the comparison `(w & mask) == key`, read off the pattern. */
  lemma SymbolBit(p: string, mask: bv32, key: bv32, w: bv32, k: bv5)
    requires |p| <= 32 && Compiled(p, mask, key, k)
    ensures Bit(w & mask, k) == Bit(key, k) <==> (k as int < |p| ==> Accepts(p[|p| - 1 - k as int], Bit(w, k)))
  {
    BitCompare(w, mask, key, k);
  }

  lemma BitCompare(w: bv32, m: bv32, c: bv32, k: bv5)
    ensures Bit(w & m, k) == Bit(c, k) <==> if Bit(m, k) then Bit(w, k) == Bit(c, k) else !Bit(c, k)
  {}

  /** Bit `k` of the mask is set exactly where the pattern has a `0` or a `1`. */
  lemma {:induction false} MaskBit(p: string, k: bv5)
    requires |p| <= 32
    ensures Bit(Mask(p), k) == (k as int < |p| && p[|p| - 1 - k as int] != '?')
    decreases |p|
  {
    if |p| > 0 {
      var q := p[..|p| - 1];
      var b: bv32 := if p[|p| - 1] == '?' then 0 else 1;
      assert Mask(p) == (Mask(q) << 1) | b;
      if k == 0 {
        LowBit(Mask(q), b);
      } else {
        MaskBit(q, k - 1);
        HighBit(Mask(q), b, k);
      }
    }
  }

  /** Bit `k` of the key is set exactly where the pattern has a `1`. */
  lemma {:induction false} KeyBit(p: string, k: bv5)
    requires |p| <= 32
    ensures Bit(Key(p), k) == (k as int < |p| && p[|p| - 1 - k as int] == '1')
    decreases |p|
  {
    if |p| > 0 {
      var q := p[..|p| - 1];
      var b: bv32 := if p[|p| - 1] == '1' then 1 else 0;
      assert Key(p) == (Key(q) << 1) | b;
      if k == 0 {
        LowBit(Key(q), b);
      } else {
        KeyBit(q, k - 1);
        HighBit(Key(q), b, k);
      }
    }
  }

  lemma LowBit(m: bv32, b: bv32)
    requires b <= 1
    ensures Bit((m << 1) | b, 0) == (b == 1)
  {}

  lemma HighBit(m: bv32, b: bv32, k: bv5)
    requires b <= 1 && k > 0
    ensures Bit((m << 1) | b, k) == Bit(m, k - 1)
  {}

  /**
   * A (mask, key) pair written out by hand is the compiled form of `p` once
   * it agrees with `p` symbol by symbol.
   */
  lemma CompilesTo(p: string, mask: bv32, key: bv32)
    requires |p| <= 32
    requires forall k: bv5 :: Compiled(p, mask, key, k)
    ensures Mask(p) == mask && Key(p) == key
  {
    forall k: bv5 ensures Bit(Mask(p), k) == Bit(mask, k) && Bit(Key(p), k) == Bit(key, k) {
      CompiledBit(p, k);
      assert Compiled(p, mask, key, k);
    }
    Extensionality(Mask(p), mask);
    Extensionality(Key(p), key);
  }
}
