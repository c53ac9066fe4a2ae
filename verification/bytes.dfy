/** Byte-level arithmetic of the machine.

    Every register cell, program byte and data byte is an unsigned 8-bit value,
    modelled as an integer in [0, 256). The C++ operators on `unsigned char`
    promote to `int`, compute, and truncate back to 8 bits on assignment; the
    functions below make that truncation explicit. Bitwise `&`, `|` and `^` are
    defined bit by bit over the low `n` bits, so that their properties can be
    proved by induction on the width. */
module Bytes {

  /** An unsigned 8-bit value. */
  type byte = x: int | 0 <= x < 256

  /** Number of bits in a byte. */
  const BYTE_BITS: nat := 8

  function Pow2(n: nat): (p: nat)
    ensures p >= 1
  {
    if n == 0 then 1 else 2 * Pow2(n - 1)
  }

  /** Bitwise AND of the low `n` bits of `a` and `b`. */
  function And(a: nat, b: nat, n: nat): (r: nat)
    ensures r < Pow2(n)
    ensures r <= a
  {
    if n == 0 then 0
    else (if a % 2 == 1 && b % 2 == 1 then 1 else 0) + 2 * And(a / 2, b / 2, n - 1)
  }

  /** Bitwise OR of the low `n` bits of `a` and `b`. */
  function Or(a: nat, b: nat, n: nat): (r: nat)
    ensures r < Pow2(n)
  {
    if n == 0 then 0
    else (if a % 2 == 1 || b % 2 == 1 then 1 else 0) + 2 * Or(a / 2, b / 2, n - 1)
  }

  /** Bitwise exclusive OR of the low `n` bits of `a` and `b`. */
  function Xor(a: nat, b: nat, n: nat): (r: nat)
    ensures r < Pow2(n)
  {
    if n == 0 then 0
    else (a + b) % 2 + 2 * Xor(a / 2, b / 2, n - 1)
  }

  /** `x & 0x0F` on a byte: the low nibble, always a valid register index
      (`LowNibbleIsMask` shows it is the bitwise AND). */
  function LowNibble(x: byte): (r: nat)
    ensures r < 16
    ensures x == 16 * (x / 16) + r
  {
    x % 16
  }

  /** `(x >> 4) & 0x0F` on a byte: the high nibble, always a valid register index
      (`HighNibbleIsMask` shows it is the shift followed by the bitwise AND). */
  function HighNibble(x: byte): (r: nat)
    ensures r < 16
    ensures x == 16 * r + x % 16
  {
    x / 16
  }

  /** The low nibble is what masking with 0x0F keeps. */
  lemma LowNibbleIsMask(x: byte)
    ensures LowNibble(x) == And(x, 0x0F, BYTE_BITS)
  {
    var p := Pow2(4);
    assert p == 16;
    AndLowBits(x, 4, BYTE_BITS);
  }

  /** The high nibble is what shifting right by 4 (dividing by 16) and
      masking with 0x0F keeps. */
  lemma HighNibbleIsMask(x: byte)
    ensures HighNibble(x) == And(x / 16, 0x0F, BYTE_BITS)
  {
    MaskKeepsNibble(x / 16);
  }

  /** Masking a value below 16 with 0x0F keeps it whole. */
  lemma MaskKeepsNibble(h: nat)
    requires h < 16
    ensures And(h, 0x0F, BYTE_BITS) == h
  {
    var p := Pow2(4);
    assert p == 16;
    AndLowBits(h, 4, BYTE_BITS);
    ModUnique(h, p, 0, h);
  }

  /** `x & 0x0F >> 4`, which C++ parses as `x & (0x0F >> 4)`, that is `x & 0`. */
  function MisparsedHighNibble(x: byte): (r: nat)
    ensures r == 0
  {
    AndZero(x, BYTE_BITS);
    And(x, 0x0F / Pow2(4), BYTE_BITS)
  }

  /** A byte read through a signed `char`: two's complement, in [-128, 128). */
  function Signed(x: byte): (d: int)
    ensures -128 <= d < 128
    ensures (d - x) % 256 == 0
  {
    if x < 0x80 then x else x - 256
  }

  /** `a += b` on `unsigned char`: the sum, wrapped once past 255. */
  function Add8(a: byte, b: byte): (r: byte)
    ensures r == a + b || r == a + b - 256
  {
    (a + b) % 256
  }

  /** `a -= b` on `unsigned char`: the difference, wrapped once below 0. */
  function Sub8(a: byte, b: byte): (r: byte)
    ensures r == a - b || r == a - b + 256
  {
    (a - b) % 256
  }

  /** `a <<= 1` on `unsigned char`: bit 7 is discarded, bit 0 becomes 0. */
  function Shl1(a: byte): (r: byte)
    ensures r == 2 * (a % 128)
  {
    (2 * a) % 256
  }

  /** `a >>= 1` on `unsigned char`: bit 0 is discarded, bit 7 becomes 0. */
  function Shr1(a: byte): (r: byte)
    ensures r < 128
    ensures a == 2 * r + a % 2
  {
    a / 2
  }

  /** `a ^= b` on `unsigned char`; XOR-ing the result with `b` again gives `a` back. */
  function Xor8(a: byte, b: byte): (r: byte)
    ensures Xor(r, b, BYTE_BITS) == a
  {
    Pow2Byte();
    XorTwice(a, b, BYTE_BITS);
    Xor(a, b, BYTE_BITS)
  }

  /** `a |= b` on `unsigned char`: every bit of either operand is set in the
      result, and the result is their sum less the bits they share, so it has
      no other bit. */
  function Or8(a: byte, b: byte): (r: byte)
    ensures a <= r && b <= r
    ensures And(r, a, BYTE_BITS) == a && And(r, b, BYTE_BITS) == b
    ensures r + And(a, b, BYTE_BITS) == a + b
  {
    Pow2Byte();
    OrUpper(a, b, BYTE_BITS);
    OrKeepsBits(a, b, BYTE_BITS);
    OrAndSum(a, b, BYTE_BITS);
    Or(a, b, BYTE_BITS)
  }

  lemma Pow2Byte()
    ensures Pow2(BYTE_BITS) == 256
  {
  }

  /** Masking with `2^k - 1` keeps exactly the low `k` bits. */
  lemma {:induction false} AndLowBits(a: nat, k: nat, n: nat)
    requires k <= n
    ensures And(a, Pow2(k) - 1, n) == a % Pow2(k)
  {
    if k == 0 {
      AndZero(a, n);
    } else {
      AndLowBits(a / 2, k - 1, n - 1);
      assert (Pow2(k) - 1) / 2 == Pow2(k - 1) - 1;
      assert (Pow2(k) - 1) % 2 == 1;
      DivModPow2(a, k);
    }
  }

  /** Splitting off the lowest bit: `a % 2^k == a % 2 + 2 * ((a / 2) % 2^(k-1))`. */
  lemma DivModPow2(a: nat, k: nat)
    requires k > 0
    ensures a % Pow2(k) == a % 2 + 2 * ((a / 2) % Pow2(k - 1))
  {
    var p := Pow2(k - 1);
    var q := (a / 2) / p;
    var s := (a / 2) % p;
    assert a / 2 == q * p + s;
    assert a == q * (2 * p) + (2 * s + a % 2);
    assert 0 <= 2 * s + a % 2 < 2 * p;
    ModUnique(a, 2 * p, q, 2 * s + a % 2);
  }

  lemma ModUnique(a: nat, m: nat, q: int, s: int)
    requires m > 0 && 0 <= s < m && a == q * m + s
    ensures a % m == s
  {
    var q0, s0 := a / m, a % m;
    assert a == q0 * m + s0;
    assert (q - q0) * m == s0 - s;
    if q > q0 {
      MulAtLeast(q - q0, m);
    } else if q < q0 {
      MulAtLeast(q0 - q, m);
    }
  }

  lemma MulAtLeast(k: int, m: int)
    requires k >= 1 && m > 0
    ensures k * m >= m
  {
    assert k * m == (k - 1) * m + m;
  }

  /** Masking with 0 clears every bit. */
  lemma {:induction false} AndZero(a: nat, n: nat)
    ensures And(a, 0, n) == 0
  {
    if n > 0 {
      AndZero(a / 2, n - 1);
    }
  }

  /** XOR with the same key twice restores the value: what makes XOR usable
      both to encrypt and to decrypt a data stream. */
  lemma {:induction false} XorTwice(a: nat, b: nat, n: nat)
    requires a < Pow2(n)
    ensures Xor(Xor(a, b, n), b, n) == a
  {
    if n > 0 {
      var q := Xor(a / 2, b / 2, n - 1);
      var x := Xor(a, b, n);
      LowBit(x, (a + b) % 2, q);
      XorTwice(a / 2, b / 2, n - 1);
      ParityCancel(a, b, x);
      XorUnfold(x, b, n);
      LowBit(a, a % 2, a / 2);
    }
  }

  lemma XorUnfold(a: nat, b: nat, n: nat)
    requires n > 0
    ensures Xor(a, b, n) == (a + b) % 2 + 2 * Xor(a / 2, b / 2, n - 1)
  {
  }

  /** `bit + 2 * rest` has `bit` as its low bit and `rest` above it. */
  lemma LowBit(x: nat, bit: nat, rest: nat)
    requires bit < 2 && x == bit + 2 * rest
    ensures x % 2 == bit && x / 2 == rest
  {
  }

  lemma ParityCancel(a: nat, b: nat, x: nat)
    requires x % 2 == (a + b) % 2
    ensures (x + b) % 2 == a % 2
  {
  }

  /** XOR of a value with itself is zero (`XOR r, r` clears a register). */
  lemma {:induction false} XorSelf(a: nat, n: nat)
    ensures Xor(a, a, n) == 0
  {
    if n > 0 {
      XorSelf(a / 2, n - 1);
    }
  }

  /** OR never clears a bit: the result is at least each operand. */
  lemma {:induction false} OrUpper(a: nat, b: nat, n: nat)
    requires a < Pow2(n) && b < Pow2(n)
    ensures a <= Or(a, b, n) && b <= Or(a, b, n)
  {
    if n > 0 {
      OrUpper(a / 2, b / 2, n - 1);
    }
  }

  /** OR keeps every bit of each operand: masking the result with an operand
      gives that operand back. */
  lemma {:induction false} OrKeepsBits(a: nat, b: nat, n: nat)
    requires a < Pow2(n) && b < Pow2(n)
    ensures And(Or(a, b, n), a, n) == a && And(Or(a, b, n), b, n) == b
  {
    if n > 0 {
      var bit := if a % 2 == 1 || b % 2 == 1 then 1 else 0;
      var rest := Or(a / 2, b / 2, n - 1);
      LowBit(Or(a, b, n), bit, rest);
      OrKeepsBits(a / 2, b / 2, n - 1);
    }
  }

  /** OR counts a shared bit once: `(a | b) + (a & b) == a + b`. */
  lemma {:induction false} OrAndSum(a: nat, b: nat, n: nat)
    requires a < Pow2(n) && b < Pow2(n)
    ensures Or(a, b, n) + And(a, b, n) == a + b
  {
    if n > 0 {
      OrAndSum(a / 2, b / 2, n - 1);
    }
  }

  /** Subtraction undoes addition modulo 256. */
  lemma SubUndoesAdd(a: byte, b: byte)
    ensures Sub8(Add8(a, b), b) == a
  {
  }
}
