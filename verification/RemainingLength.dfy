/** The remaining-length field of an MQTT fixed header: section 2.2.3 of MQTT 3.1.1. */
module RemainingLength {
  import opened Bytes
  import opened Socket

  const MAX_ENCODABLE := 0x1000_0000   // 2^28: what four bytes can carry
  const MAX_DECODABLE := 0x20_0000     // 2^21: what the decoder of this broker accepts

  /** Little-endian base-128 digits, the top bit of a byte set while more follow. */
  function EncodeLen(n: nat): (e: seq<byte>) {
    if n < 128 then [n] else [n % 128 + 128] + EncodeLen(n / 128)
  }

  /** What a digit string stands for (section 2.2.3), without any limit on its length. */
  function Value(e: seq<byte>): nat {
    if e == [] then 0 else e[0] % 128 + 128 * Value(e[1..])
  }

  /** A digit string: continuation bit on every byte but the last. */
  predicate IsField(e: seq<byte>) {
    e != [] && e[|e| - 1] < 128 && forall i :: 0 <= i < |e| - 1 ==> e[i] >= 128
  }

  /** Both failures return -1 in the source; `rest` is what is then left of the stream. */
  datatype LenResult = Len(value: nat, rest: seq<byte>) | NoLen(rest: seq<byte>)

  /** Decode with at most `left` digits to come; reading one more than that is a failure. */
  function DecodeDigits(s: seq<byte>, left: nat): (d: LenResult)
    ensures |d.rest| <= |s| && (s != [] ==> |d.rest| < |s|)
    ensures d.Len? && left <= 3 ==> left > 0 && d.value < [128, 128 * 128, MAX_DECODABLE][left - 1]
  {
    if s == [] then NoLen([])
    else if left == 0 then NoLen(s[1..])
    else if s[0] < 128 then Len(s[0], s[1..])
    else match DecodeDigits(s[1..], left - 1)
      case Len(v, rest) => Len(s[0] % 128 + 128 * v, rest)
      case NoLen(rest) => NoLen(rest)
  }

  function DecodeLen(s: seq<byte>): LenResult {
    DecodeDigits(s, 3)
  }

  /** `d` with a value that follows digits worth `val`, the next digit weighing `mul`. */
  function Scale(d: LenResult, val: nat, mul: nat): LenResult {
    match d
    case Len(v, rest) => Len(val + mul * v, rest)
    case NoLen(rest) => NoLen(rest)
  }

  ghost predicate Weight(left: nat, mul: nat) {
    (left == 3 && mul == 1) || (left == 2 && mul == 128) || (left == 1 && mul == 128 * 128)
    || (left == 0 && mul == 128 * 128 * 128)
  }

  /** One more digit: no 32-bit product or sum wraps, and the value so far stays below the weight. */
  lemma DigitStep(val: nat, digit: nat, mul: nat, left: nat)
    requires Weight(left, mul) && val < mul && digit < 128
    ensures (val + digit * mul) % TWO32 == val + digit * mul < mul * 128
    ensures mul * 128 % TWO32 == mul * 128
    ensures left > 0 <==> mul * 128 <= 128 * 128 * 128
    ensures left > 0 ==> Weight(left - 1, mul * 128)
  {
    if left == 3 { assert digit * mul == digit; }
    else if left == 2 { assert digit * mul == digit * 128; }
    else if left == 1 { assert digit * mul == digit * 16384; }
    else { assert digit * mul == digit * 2097152; }
  }

  /** Reading one byte moves its digit from the bytes still to decode into the value so far. */
  lemma ScaleStep(s: seq<byte>, left: nat, val: nat, mul: nat)
    requires s != []
    ensures left == 0 ==> Scale(DecodeDigits(s, left), val, mul) == NoLen(s[1..])
    ensures left > 0 && s[0] < 128 ==> Scale(DecodeDigits(s, left), val, mul) == Len(val + s[0] % 128 * mul, s[1..])
    ensures left > 0 && s[0] >= 128 ==>
              Scale(DecodeDigits(s, left), val, mul)
              == Scale(DecodeDigits(s[1..], left - 1), val + s[0] % 128 * mul, mul * 128)
  {
    if left > 0 && s[0] >= 128 {
      match DecodeDigits(s[1..], left - 1)
      case NoLen(_) =>
      case Len(v, _) =>
        assert mul * (s[0] % 128 + 128 * v) == s[0] % 128 * mul + mul * 128 * v;
    }
  }

  lemma EncodeStep(x: u32)
    ensures EncodeLen(x) == if x < 128 then [x] else [x % 128 + 128] + EncodeLen(x / 128)
  {
  }

  /** The buffer with the bytes `done` from `off` on. */
  function Patched(orig: seq<byte>, off: nat, done: seq<byte>): (p: seq<byte>)
    requires off + |done| <= |orig|
    ensures |p| == |orig|
  {
    orig[..off] + done + orig[off + |done|..]
  }

  lemma PatchMore(orig: seq<byte>, off: nat, done: seq<byte>, b: byte)
    requires off + |done| < |orig|
    ensures Patched(orig, off, done)[off + |done| := b] == Patched(orig, off, done + [b])
  {
  }

  lemma PatchNone(orig: seq<byte>, off: nat)
    requires off <= |orig|
    ensures Patched(orig, off, []) == orig
  {
  }

  lemma PatchParts(orig: seq<byte>, off: nat, done: seq<byte>)
    requires off + |done| <= |orig|
    ensures var p, n := Patched(orig, off, done), off + |done|;
            p[off..n] == done && p[..off] == orig[..off] && p[n..] == orig[n..]
  {
  }

  lemma PrefixJoin(e: seq<byte>, done: seq<byte>, digit: byte, more: seq<byte>)
    requires e == done + ([digit] + more)
    ensures e == done + [digit] + more
  {
  }

  /** mqtt_encode_remaining_len: write the field at `off` of a buffer and return its length. */
  method EncodeRemainingLen(len: u32, buf: array<byte>, off: nat) returns (i: nat)
    requires off + |EncodeLen(len)| <= buf.Length
    modifies buf
    ensures i == |EncodeLen(len)|
    ensures buf[off..off + i] == EncodeLen(len)
    ensures buf[..off] == old(buf[..off]) && buf[off + i..] == old(buf[off + i..])
  {
    hide EncodeLen, Patched;
    var rest := len;
    i := 0;
    ghost var orig := buf[..];
    ghost var done: seq<byte> := [];
    PatchNone(orig, off);
    while true
      invariant i == |done| && off + i + |EncodeLen(rest)| <= buf.Length == |orig|
      invariant EncodeLen(len) == done + EncodeLen(rest)
      invariant buf[..] == Patched(orig, off, done)
      decreases rest
    {
      EncodeStep(rest);
      var digit := rest % 128;
      rest := rest / 128;
      if rest > 0 {
        digit := digit + 128;
      }
      PatchMore(orig, off, done, digit);
      buf[off + i] := digit;
      i := i + 1;
      if rest == 0 {
        done := done + [digit];
        break;
      }
      PrefixJoin(EncodeLen(len), done, digit, EncodeLen(rest));
      done := done + [digit];
    }
    PatchParts(orig, off, done);
    assert buf[..][..off] == buf[..off] && buf[..][off..off + i] == buf[off..off + i] && buf[..][off + i..] == buf[off + i..];
    assert orig[..off] == old(buf[..off]) && orig[off + i..] == old(buf[off + i..]);
  }

  /** mqtt_decode_remaining_len. The 32-bit sums never wrap, which the reductions below record. */
  method DecodeRemainingLen(sock: Socket) returns (ok: bool, out: u32)
    modifies sock
    ensures match DecodeLen(old(sock.inbox))
            case Len(v, rest) => ok && out == v && sock.inbox == rest
            case NoLen(rest) => !ok && sock.inbox == rest
  {
    var val: nat, mul: nat := 0, 1;
    ok, out := false, 0;
    ghost var left: nat := 3;
    while true
      invariant Weight(left, mul) && val < mul
      invariant Scale(DecodeDigits(sock.inbox, left), val, mul) == DecodeLen(old(sock.inbox))
      decreases |sock.inbox|
    {
      ghost var s := sock.inbox;
      var got := sock.Recv(1);
      if got == [] {
        return;
      }
      assert sock.inbox == s[1..] && got[0] == s[0];
      var enc := got[0];
      DigitStep(val, enc % 128, mul, left);
      ScaleStep(s, left, val, mul);
      val := (val + enc % 128 * mul) % TWO32;
      mul := mul * 128 % TWO32;
      if mul > 128 * 128 * 128 {
        return;
      }
      if enc < 128 {
        return true, val;
      }
      left := left - 1;
    }
  }

  // The encoding is the shortest field with its value, and the only one that short.

  lemma {:induction false} EncodeLenIsField(n: nat)
    ensures IsField(EncodeLen(n)) && Value(EncodeLen(n)) == n
  {
    var e := EncodeLen(n);
    if n >= 128 {
      EncodeLenIsField(n / 128);
      assert e[1..] == EncodeLen(n / 128);
      forall i | 0 <= i < |e| - 1 ensures e[i] >= 128 {
        if i > 0 {
          assert e[i] == e[1..][i - 1];
        }
      }
    } else {
      assert e[1..] == [];
    }
  }

  lemma {:induction false} EncodeLenMinimal(n: nat, e: seq<byte>)
    requires IsField(e) && Value(e) == n
    ensures |EncodeLen(n)| <= |e|
    ensures |e| == |EncodeLen(n)| ==> e == EncodeLen(n)
  {
    if |e| == 1 {
      assert e[1..] == [];
    } else {
      assert IsField(e[1..]);
      if n >= 128 {
        EncodeLenMinimal(n / 128, e[1..]);
        assert e == [e[0]] + e[1..];
      }
    }
  }

  /** The field of a number has k bytes exactly when the number has k base-128 digits. */
  lemma {:induction false} EncodeLenSize(n: nat)
    ensures |EncodeLen(n)| <= 1 <==> n < 128
    ensures |EncodeLen(n)| <= 2 <==> n < 128 * 128
    ensures |EncodeLen(n)| <= 3 <==> n < 128 * 128 * 128
    ensures |EncodeLen(n)| <= 4 <==> n < 128 * 128 * 128 * 128
  {
    if n >= 128 {
      EncodeLenSize(n / 128);
    }
  }

  // Decoding an encoding.

  lemma {:induction false} DecodeEncodedDigits(n: nat, tail: seq<byte>, left: nat)
    ensures |EncodeLen(n)| <= left ==> DecodeDigits(EncodeLen(n) + tail, left) == Len(n, tail)
    ensures |EncodeLen(n)| > left ==> DecodeDigits(EncodeLen(n) + tail, left).NoLen?
  {
    var e := EncodeLen(n);
    var s := e + tail;
    assert s[0] == e[0] && s[1..] == e[1..] + tail;
    if left > 0 && n >= 128 {
      assert e[1..] == EncodeLen(n / 128);
      DecodeEncodedDigits(n / 128, tail, left - 1);
    } else if left > 0 {
      assert e[1..] + tail == tail;
    }
  }

  /** The decoder gives back the encoded value, and consumes its field exactly, if and only if the
      value is below 2^21. */
  lemma DecodeEncoded(n: nat, tail: seq<byte>)
    ensures DecodeLen(EncodeLen(n) + tail) == Len(n, tail) <==> n < 0x20_0000
    ensures n >= 0x20_0000 ==> DecodeLen(EncodeLen(n) + tail).NoLen?
  {
    DecodeEncodedDigits(n, tail, 3);
    EncodeLenSize(n);
  }

  /** Whatever the decoder accepts is a field of at most `left` bytes, with its standard value. */
  lemma {:induction false} DecodeSound(s: seq<byte>, left: nat) returns (e: seq<byte>)
    requires DecodeDigits(s, left).Len?
    ensures var d := DecodeDigits(s, left);
            s == e + d.rest && IsField(e) && |e| <= left && Value(e) == d.value
  {
    if s[0] < 128 {
      e := [s[0]];
      assert e[1..] == [];
    } else {
      var f := DecodeSound(s[1..], left - 1);
      e := [s[0]] + f;
      assert e[1..] == f;
      assert forall i :: 0 < i < |e| ==> e[i] == f[i - 1];
    }
  }
}
