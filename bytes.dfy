/** Raw bytes, 32-byte public keys with the ordering Rust derives for them,
    the fixed-width integer types of the source, and the big-endian
    encodings (`to_be_bytes`) that the address seeds are built from. */
module Bytes {
  newtype byte = x: int | 0 <= x < 0x100

  type u16 = x: int | 0 <= x < 0x1_0000
  type u64 = x: int | 0 <= x < 0x1_0000_0000_0000_0000
  type i32 = x: int | -0x8000_0000 <= x < 0x8000_0000

  const KEY_LEN: nat := 32

  /** A `Pubkey`: exactly 32 raw bytes, as `to_bytes` returns them. */
  type Pubkey = k: seq<byte> | |k| == KEY_LEN witness seq(KEY_LEN, (_: int) => 0 as byte)

  /** Strict lexicographic order on byte strings of equal length: the order
      `#[derive(PartialOrd)]` gives `Pubkey`, a wrapper of `[u8; 32]`. */
  predicate Less(a: seq<byte>, b: seq<byte>)
    requires |a| == |b|
    decreases |a|
  {
    |a| > 0 && (a[0] < b[0] || (a[0] == b[0] && Less(a[1..], b[1..])))
  }

  predicate LessEq(a: seq<byte>, b: seq<byte>)
    requires |a| == |b|
  {
    a == b || Less(a, b)
  }

  lemma {:induction false} LessIrreflexive(a: seq<byte>)
    ensures !Less(a, a)
    decreases |a|
  {
    if |a| > 0 {
      LessIrreflexive(a[1..]);
    }
  }

  lemma {:induction false} LessAsymmetric(a: seq<byte>, b: seq<byte>)
    requires |a| == |b|
    ensures Less(a, b) ==> !Less(b, a)
    decreases |a|
  {
    if |a| > 0 && a[0] == b[0] {
      LessAsymmetric(a[1..], b[1..]);
    }
  }

  /** Any two distinct keys are ordered one way or the other. */
  lemma {:induction false} LessTotal(a: seq<byte>, b: seq<byte>)
    requires |a| == |b|
    ensures a == b || Less(a, b) || Less(b, a)
    decreases |a|
  {
    if |a| > 0 && a[0] == b[0] {
      LessTotal(a[1..], b[1..]);
      if a[1..] == b[1..] {
        assert a == [a[0]] + a[1..] && b == [b[0]] + b[1..];
      }
    }
  }

  /** `Less` is the usual "first differing byte is smaller" order. */
  lemma {:induction false} LessIsFirstDifference(a: seq<byte>, b: seq<byte>)
    requires |a| == |b|
    ensures Less(a, b) <==> exists k :: 0 <= k < |a| && a[..k] == b[..k] && a[k] < b[k]
    decreases |a|
  {
    if |a| > 0 {
      LessIsFirstDifference(a[1..], b[1..]);
      if Less(a, b) && a[0] == b[0] && !(a[0] < b[0]) {
        var k :| 0 <= k < |a| - 1 && a[1..][..k] == b[1..][..k] && a[1..][k] < b[1..][k];
        assert a[..k + 1] == [a[0]] + a[1..][..k];
        assert b[..k + 1] == [b[0]] + b[1..][..k];
      }
      if exists k :: 0 <= k < |a| && a[..k] == b[..k] && a[k] < b[k] {
        var k :| 0 <= k < |a| && a[..k] == b[..k] && a[k] < b[k];
        if k > 0 {
          assert a[0] == a[..k][0] == b[..k][0] == b[0];
          assert a[1..][..k - 1] == a[..k][1..];
          assert b[1..][..k - 1] == b[..k][1..];
        }
      }
    }
  }

  /** `u16::to_be_bytes`. */
  function U16BeBytes(x: u16): (r: seq<byte>)
    ensures |r| == 2
  {
    [(x / 0x100) as byte, (x % 0x100) as byte]
  }

  /** `u16::from_be_bytes`. */
  function U16FromBeBytes(b: seq<byte>): u16
    requires |b| == 2
  {
    b[0] as int * 0x100 + b[1] as int
  }

  lemma U16BeRoundTrip(x: u16)
    ensures U16FromBeBytes(U16BeBytes(x)) == x
  {
  }

  lemma U16BeInjective(x: u16, y: u16)
    ensures U16BeBytes(x) == U16BeBytes(y) ==> x == y
  {
    U16BeRoundTrip(x);
    U16BeRoundTrip(y);
  }

  /** The unsigned value of the two's-complement bit pattern of `x`. */
  function I32Bits(x: i32): (u: nat)
    ensures u < 0x1_0000_0000
    ensures u < 0x8000_0000 <==> x >= 0
  {
    if x < 0 then x + 0x1_0000_0000 else x
  }

  /** `i32::to_be_bytes`: the two's-complement bit pattern, most significant byte first. */
  function I32BeBytes(x: i32): (r: seq<byte>)
    ensures |r| == 4
  {
    var u0 := I32Bits(x);
    var u1 := u0 / 0x100;
    var u2 := u1 / 0x100;
    [(u2 / 0x100) as byte, (u2 % 0x100) as byte, (u1 % 0x100) as byte, (u0 % 0x100) as byte]
  }

  /** `i32::from_be_bytes`. */
  function I32FromBeBytes(b: seq<byte>): i32
    requires |b| == 4
  {
    var u := ((b[0] as int * 0x100 + b[1] as int) * 0x100 + b[2] as int) * 0x100 + b[3] as int;
    if u < 0x8000_0000 then u else u - 0x1_0000_0000
  }

  lemma {:induction false} I32BeRoundTrip(x: i32)
    ensures I32FromBeBytes(I32BeBytes(x)) == x
  {
    var u0 := I32Bits(x);
    var u1 := u0 / 0x100;
    var u2 := u1 / 0x100;
    var b := I32BeBytes(x);
    assert b[0] as int * 0x100 + b[1] as int == u2;
    assert u2 * 0x100 + b[2] as int == u1;
    assert u1 * 0x100 + b[3] as int == u0;
  }

  lemma I32BeInjective(x: i32, y: i32)
    ensures I32BeBytes(x) == I32BeBytes(y) ==> x == y
  {
    I32BeRoundTrip(x);
    I32BeRoundTrip(y);
  }

  /** The sign of a start index shows in the top bit of the first byte. */
  lemma I32BeSignBit(x: i32)
    ensures I32BeBytes(x)[0] >= 0x80 <==> x < 0
  {
  }

  /** The bytes of an ASCII string (`str::as_bytes` on the seed constants). */
  function AsciiBytes(s: string): (r: seq<byte>)
    requires forall i :: 0 <= i < |s| ==> s[i] as int < 0x80
    ensures |r| == |s|
    ensures forall i :: 0 <= i < |s| ==> r[i] as int == s[i] as int
  {
    seq(|s|, i requires 0 <= i < |s| => s[i] as int as byte)
  }
}
