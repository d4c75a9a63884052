/** Byte strings, 32-bit unsigned heights and the two encodings of a height
    the indexer uses: `u32::to_le_bytes`/`u32::from_le_bytes` for the stored
    tip height, and `u32::to_string` for the per-height hash keys. */
module Bytes {

  newtype byte = x: int | 0 <= x < 256

  type Bytes = seq<byte>

  const U32_LIMIT: int := 0x1_0000_0000

  /** Rust's `u32`. */
  type u32 = x: int | 0 <= x < 0x1_0000_0000

  /** The bytes of a string built from ASCII characters (`str::as_bytes`);
      every string constant of the indexer is ASCII, for which UTF-8 is the
      character code itself. */
  function AsciiBytes(s: string): (r: Bytes)
    ensures |r| == |s|
    ensures forall i :: 0 <= i < |s| && s[i] as int < 256 ==> r[i] as int == s[i] as int
  {
    seq(|s|, i requires 0 <= i < |s| => (s[i] as int % 256) as byte)
  }

  function Pow256(k: nat): (r: nat)
    ensures r >= 1
  {
    if k == 0 then 1 else 256 * Pow256(k - 1)
  }

  // ---------------------------------------------------------------------
  // Little-endian encoding

  /** The `k` least significant base-256 digits of `n`, lowest first. */
  function Le(n: nat, k: nat): (r: Bytes)
    ensures |r| == k
  {
    if k == 0 then [] else [(n % 256) as byte] + Le(n / 256, k - 1)
  }

  /** The number whose base-256 digits, lowest first, are `b`. */
  function FromLe(b: Bytes): (r: nat)
    ensures r < Pow256(|b|)
  {
    if b == [] then 0 else b[0] as int + 256 * FromLe(b[1..])
  }

  lemma {:induction false} FromLeOfLe(n: nat, k: nat)
    requires n < Pow256(k)
    ensures FromLe(Le(n, k)) == n
  {
    if k > 0 {
      FromLeOfLe(n / 256, k - 1);
      assert Le(n, k)[1..] == Le(n / 256, k - 1);
    }
  }

  lemma {:induction false} LeOfFromLe(b: Bytes)
    ensures Le(FromLe(b), |b|) == b
  {
    if b != [] {
      var x := FromLe(b[1..]);
      assert (b[0] as int + 256 * x) % 256 == b[0] as int;
      assert (b[0] as int + 256 * x) / 256 == x;
      LeOfFromLe(b[1..]);
    }
  }

  /** `u32::to_le_bytes`. */
  function LeBytes(n: u32): (r: Bytes)
    ensures |r| == 4
    ensures FromLe(r) == n
  {
    FromLeOfLe(n, 4);
    Le(n, 4)
  }

  /** `u32::from_le_bytes` on a slice that `try_into` accepted: exactly 4 bytes. */
  function FromLeBytes(b: Bytes): (r: u32)
    requires |b| == 4
    ensures LeBytes(r) == b
  {
    LeOfFromLe(b);
    FromLe(b)
  }

  lemma LeBytesInjective(m: u32, n: u32)
    ensures LeBytes(m) == LeBytes(n) ==> m == n
  {
  }

  // ---------------------------------------------------------------------
  // Decimal rendering

  function Digit(d: nat): (r: byte)
    requires d < 10
    ensures 48 <= r as int <= 57
  {
    (48 + d) as byte
  }

  /** `to_string` of a non-negative integer: its decimal digits, most
      significant first, with no leading zeros. */
  function Decimal(n: nat): (r: Bytes)
    ensures 1 <= |r|
    ensures n >= 10 ==> |r| >= 2
    ensures r[|r| - 1] == Digit(n % 10)
    ensures n < 10 <==> |r| == 1
    ensures |r| == 1 || r[0] != Digit(0)
  {
    if n < 10 then [Digit(n)] else Decimal(n / 10) + [Digit(n % 10)]
  }

  /** Distinct numbers have distinct decimal renderings. */
  lemma {:induction false} DecimalInjective(a: nat, b: nat)
    requires Decimal(a) == Decimal(b)
    ensures a == b
  {
    var da, db := Decimal(a), Decimal(b);
    assert a % 10 == b % 10 by {
      assert da[|da| - 1] == db[|db| - 1];
    }
    if a >= 10 && b >= 10 {
      assert Decimal(a / 10) == da[..|da| - 1];
      assert Decimal(b / 10) == db[..|db| - 1];
      DecimalInjective(a / 10, b / 10);
    }
  }
}
