/** The usual optional value. */
module Options {
  datatype Option<+T> = None | Some(value: T)
}

/** The few facts about products and remainders the other modules need. */
module Arithmetic {
  lemma Grows(c: nat, p: nat, q: nat)
    ensures p < q ==> c * p + c <= c * q
  {
    if p < q {
      assert c * q == c * p + c * (q - p);
      assert c * (q - p) == c + c * (q - p - 1);
    }
  }

  /** Quotient and remainder are determined by the defining equation. */
  lemma DivisionIsUnique(a: nat, c: nat, q: nat, r: nat)
    requires r < c && a == c * q + r
    ensures a / c == q && a % c == r
  {
    Grows(c, q, a / c);
    Grows(c, a / c, q);
  }

  lemma WrapIndex(a: nat, capacity: nat)
    requires 0 < capacity && a < 2 * capacity
    ensures a % capacity == if a < capacity then a else a - capacity
  {
    if a < capacity {
      DivisionIsUnique(a, capacity, 0, a);
    } else {
      DivisionIsUnique(a, capacity, 1, a - capacity);
    }
  }

  lemma SlotsApart(i: nat, j: nat, slotSize: nat)
    requires i < j
    ensures i * slotSize + slotSize <= j * slotSize
  {
    Grows(slotSize, i, j);
  }
}

/** Bytes and the fixed-width integers of the wire formats. */
module Bytes {
  import opened Arithmetic

  type byte = b: int | 0 <= b < 256

  type u32 = n: nat | n < 0x1_0000_0000

  type u64 = n: nat | n < 0x1_0000_0000_0000_0000

  const MASK16: nat := 0x1_0000
  const MASK32: nat := 0x1_0000_0000
  const MASK64: nat := 0x1_0000_0000_0000_0000

  /** The difference of two wrapped 32-bit ticks is the true difference, wrapped. */
  lemma WrappedDifference(since: nat, at: nat)
    requires since <= at
    ensures (at % MASK32 - since % MASK32) % MASK32 == (at - since) % MASK32 <= at - since
    ensures at - since < MASK32 ==> (at % MASK32 - since % MASK32) % MASK32 == at - since
  {
    var k, d := (at - since) / MASK32, (at - since) % MASK32;
    var q, r := since / MASK32, since % MASK32;
    if r + d < MASK32 {
      DivisionIsUnique(at, MASK32, q + k, r + d);
    } else {
      DivisionIsUnique(at, MASK32, q + k + 1, r + d - MASK32);
    }
  }

  /** 256 to the power k: the number of values a k-byte field can hold. */
  function Pow256(k: nat): (p: nat)
    ensures p > 0
  {
    if k == 0 then 1 else 256 * Pow256(k - 1)
  }

  /** The k-byte big-endian encoding of n, as `struct.pack` produces it. */
  function BE(n: nat, k: nat): (s: seq<byte>)
    requires n < Pow256(k)
    ensures |s| == k
  {
    if k == 0 then [] else BE(n / 256, k - 1) + [n % 256]
  }

  /** The value of a big-endian field. */
  function FromBE(s: seq<byte>): (n: nat)
    ensures n < Pow256(|s|)
  {
    if s == [] then 0 else 256 * FromBE(s[..|s| - 1]) + s[|s| - 1]
  }

  lemma {:induction false} FromBEofBE(n: nat, k: nat)
    requires n < Pow256(k)
    ensures FromBE(BE(n, k)) == n
  {
    if k > 0 {
      FromBEofBE(n / 256, k - 1);
      var s := BE(n, k);
      assert s[..k - 1] == BE(n / 256, k - 1);
    }
  }

  lemma {:induction false} BEofFromBE(s: seq<byte>)
    ensures BE(FromBE(s), |s|) == s
  {
    if s != [] {
      BEofFromBE(s[..|s| - 1]);
      assert s == s[..|s| - 1] + [s[|s| - 1]];
    }
  }

  lemma FieldWidths()
    ensures Pow256(1) == 0x100 && Pow256(2) == MASK16
    ensures Pow256(4) == MASK32 && Pow256(8) == MASK64
  {
    assert Pow256(2) == 256 * Pow256(1);
    assert Pow256(4) == 256 * Pow256(3) && Pow256(3) == 256 * Pow256(2);
    assert Pow256(8) == 256 * Pow256(7) && Pow256(7) == 256 * Pow256(6);
    assert Pow256(6) == 256 * Pow256(5) && Pow256(5) == 256 * Pow256(4);
  }

  /** The two-byte little-endian field of the link and printer protocols. */
  function FromLE16(lo: byte, hi: byte): nat { lo + 256 * hi }
}
