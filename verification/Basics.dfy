/** Bytes, optional values, and the integer encodings that every format below is built from. */
module Basics {

  datatype Option<T> = None | Some(value: T)

  type byte = x: int | 0 <= x < 256

  /** A Go string or byte slice. */
  type Bytes = seq<byte>

  function Min(a: int, b: int): int { if a <= b then a else b }

  function Pow256(n: nat): nat {
    if n == 0 then 1 else 256 * Pow256(n - 1)
  }

  lemma Powers()
    ensures Pow256(1) == 0x100 && Pow256(2) == 0x1_0000 && Pow256(3) == 0x100_0000 && Pow256(4) == 0x1_0000_0000
    ensures Pow256(8) == 0x1_0000_0000_0000_0000
  {
    assert Pow256(5) == 256 * Pow256(4) && Pow256(6) == 256 * Pow256(5) && Pow256(7) == 256 * Pow256(6);
  }

  // ----- fixed-width integers -----

  /** The `n` low-order bytes of `v`, least significant first. */
  function LittleEndian(v: nat, n: nat): (s: Bytes)
    ensures |s| == n
    decreases n
  {
    if n == 0 then [] else [v % 256] + LittleEndian(v / 256, n - 1)
  }

  function FromLittleEndian(s: Bytes): nat
    decreases |s|
  {
    if s == [] then 0 else s[0] + 256 * FromLittleEndian(s[1..])
  }

  lemma {:induction false} LittleEndianInverts(v: nat, n: nat)
    requires v < Pow256(n)
    ensures FromLittleEndian(LittleEndian(v, n)) == v
    decreases n
  {
    if n > 0 {
      LittleEndianInverts(v / 256, n - 1);
      assert LittleEndian(v, n)[1..] == LittleEndian(v / 256, n - 1);
    }
  }

  lemma {:induction false} LittleEndianBound(s: Bytes)
    ensures FromLittleEndian(s) < Pow256(|s|)
    decreases |s|
  {
    if s != [] { LittleEndianBound(s[1..]); }
  }

  function BigEndian(v: nat, n: nat): (s: Bytes)
    ensures |s| == n
    decreases n
  {
    if n == 0 then [] else BigEndian(v / 256, n - 1) + [v % 256]
  }

  function FromBigEndian(s: Bytes): nat
    decreases |s|
  {
    if s == [] then 0 else 256 * FromBigEndian(s[..|s| - 1]) + s[|s| - 1]
  }

  lemma {:induction false} BigEndianInverts(v: nat, n: nat)
    requires v < Pow256(n)
    ensures FromBigEndian(BigEndian(v, n)) == v
    decreases n
  {
    if n > 0 {
      BigEndianInverts(v / 256, n - 1);
      assert BigEndian(v, n)[..n - 1] == BigEndian(v / 256, n - 1);
    }
  }

  /** The two's-complement reading of an unsigned value of `m` states. */
  function Signed(u: nat, m: nat): int {
    if u >= m / 2 then u - m else u
  }

  predicate Fits(v: int, m: nat) { -(m / 2) <= v < (m + 1) / 2 }

  /** The unsigned value that represents `v` among `m` states. */
  function Unsigned(v: int, m: nat): nat
    requires Fits(v, m)
  {
    if v < 0 then v + m else v
  }

  lemma SignedInverts(v: int, m: nat)
    requires m % 2 == 0 && Fits(v, m)
    ensures Unsigned(v, m) < m && Signed(Unsigned(v, m), m) == v
  {}

  /** The result of a conversion to `int64`. */
  function Wrap(x: int): int { Signed(x % 0x1_0000_0000_0000_0000, 0x1_0000_0000_0000_0000) }

  predicate Int64(v: int) { -0x8000_0000_0000_0000 <= v < 0x8000_0000_0000_0000 }

  lemma WrapInside(x: int)
    requires Int64(x)
    ensures Wrap(x) == x
  {}

  lemma WrapByTurns(x: int) returns (k: int)
    ensures Wrap(x) == x + k * 0x1_0000_0000_0000_0000 && Int64(Wrap(x))
  {
    k := -(x / 0x1_0000_0000_0000_0000);
    if Wrap(x) < 0 { k := k - 1; }
  }

  lemma WrapTurns(x: int, k: int)
    ensures Wrap(x + k * 0x1_0000_0000_0000_0000) == Wrap(x)
  {
    assert (x + k * 0x1_0000_0000_0000_0000) % 0x1_0000_0000_0000_0000 == x % 0x1_0000_0000_0000_0000;
  }

  // ----- decimal numerals -----

  const ZERO: byte := 48
  const MINUS: byte := 45
  const PLUS: byte := 43

  predicate IsDigit(b: byte) { 48 <= b <= 57 }

  predicate Numeric(s: Bytes) { forall i :: 0 <= i < |s| ==> IsDigit(s[i]) }

  /** `strconv.AppendUint` in base 10. */
  function Digits(n: nat): (s: Bytes)
    ensures s != [] && forall i :: 0 <= i < |s| ==> IsDigit(s[i])
  {
    if n < 10 then [ZERO + n] else Digits(n / 10) + [ZERO + n % 10]
  }

  /** `strconv.FormatInt` in base 10. */
  function FormatInt(v: int): Bytes {
    if v < 0 then [MINUS] + Digits(-v) else Digits(v)
  }

  function DigitsValue(s: Bytes): nat
    requires Numeric(s)
    decreases |s|
  {
    if s == [] then 0 else
      assert IsDigit(s[|s| - 1]);
      10 * DigitsValue(s[..|s| - 1]) + (s[|s| - 1] - ZERO)
  }

  /** `strconv.ParseInt(s, 10, 64)`: an optional sign, at least one digit, within 64 bits. */
  function ParseInt(s: Bytes): Option<int> {
    var signed := s != [] && (s[0] == MINUS || s[0] == PLUS);
    var digits := if signed then s[1..] else s;
    if digits == [] || !Numeric(digits) then None
    else
      var v: int := if signed && s[0] == MINUS then 0 - DigitsValue(digits) else DigitsValue(digits);
      if -0x8000_0000_0000_0000 <= v < 0x8000_0000_0000_0000 then Some(v) else None
  }

  lemma {:induction false} DigitsInvert(n: nat)
    ensures DigitsValue(Digits(n)) == n
  {
    if n >= 10 {
      DigitsInvert(n / 10);
      assert Digits(n)[..|Digits(n)| - 1] == Digits(n / 10);
    }
  }

  lemma ParseFormatted(v: int)
    requires Int64(v)
    ensures ParseInt(FormatInt(v)) == Some(v)
  {
    var s := FormatInt(v);
    if v < 0 {
      DigitsInvert(-v);
      assert s[1..] == Digits(-v);
    } else {
      DigitsInvert(v);
      assert IsDigit(s[0]);
    }
  }
}
