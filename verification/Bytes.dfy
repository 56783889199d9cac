/** Bytes, 16- and 32-bit unsigned arithmetic, and C strings held in fixed buffers. */
module Bytes {

  type byte = x: int | 0 <= x < 256

  type u32 = x: int | 0 <= x < 0x1_0000_0000

  const TWO32 := 0x1_0000_0000

  /** Unsigned 32-bit subtraction, wrapping. */
  function Sub32(a: u32, b: u32): u32 {
    if a >= b then a - b else a - b + TWO32
  }

  function Min(a: int, b: int): int {
    if a <= b then a else b
  }

  /** The C string that starts at the first byte of `b`: everything before the first NUL. */
  function CStr(b: seq<byte>): (s: seq<byte>)
    ensures 0 !in s && s <= b
    ensures |s| < |b| ==> b[|s|] == 0
  {
    if b == [] || b[0] == 0 then [] else [b[0]] + CStr(b[1..])
  }

  lemma {:induction false} CStrOfTerminated(s: seq<byte>, rest: seq<byte>)
    ensures CStr(s + [0] + rest) == CStr(s)
  {
    if s == [] {
      assert s + [0] + rest == [0] + rest;
    } else if s[0] != 0 {
      CStrOfTerminated(s[1..], rest);
      assert (s + [0] + rest)[1..] == s[1..] + [0] + rest;
    }
  }

  lemma {:induction false} CStrOfNulFree(s: seq<byte>)
    requires 0 !in s
    ensures CStr(s) == s
  {
    if s != [] {
      CStrOfNulFree(s[1..]);
    }
  }

  /** `n` zero bytes. */
  function Zeros(n: nat): (z: seq<byte>)
    ensures |z| == n && forall i :: 0 <= i < n ==> z[i] == 0
  {
    seq(n, i => 0)
  }

  /** strncpy(dst, src, n): the C string `src`, cut at `n` bytes and padded with NULs to `n`; the
      bytes of `dst` from `n` on keep their value. */
  function StrNCpy(dst: seq<byte>, src: seq<byte>, n: nat): (d: seq<byte>)
    requires n <= |dst|
    ensures |d| == |dst| && d[n..] == dst[n..]
    ensures |CStr(src)| < n ==> CStr(d) == CStr(src)
    ensures |CStr(src)| >= n && n < |dst| && dst[n] == 0 ==> CStr(d) == CStr(src)[..n]
  {
    var s := CStr(src);
    var d := if |s| >= n then s[..n] + dst[n..] else s + Zeros(n - |s|) + dst[n..];
    assert |s| < n ==> CStr(d) == s by {
      if |s| < n {
        CStrOfNulFree(s);
        CStrOfTerminated(s, Zeros(n - |s| - 1) + dst[n..]);
        assert d == s + [0] + (Zeros(n - |s| - 1) + dst[n..]);
      }
    }
    assert |s| >= n && n < |dst| && dst[n] == 0 ==> CStr(d) == s[..n] by {
      if |s| >= n && n < |dst| && dst[n] == 0 {
        CStrOfNulFree(s[..n]);
        CStrOfTerminated(s[..n], dst[n + 1..]);
        assert d == s[..n] + [0] + dst[n + 1..];
      }
    }
    d
  }
}
