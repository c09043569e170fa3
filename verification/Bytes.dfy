/** Byte strings, fixed-width little-endian integers (encoding/binary and
    struct.pack "<HH") and lower-case hex. */
module Bytes {
  type byte = x: int | 0 <= x < 256
  type bytes = seq<byte>

  datatype Option<+T> = None | Some(value: T)
  datatype Result<+T> = Ok(value: T) | Err

  const TWO_16: int := 0x1_0000
  const TWO_63: int := 0x8000_0000_0000_0000
  const TWO_64: int := 0x1_0000_0000_0000_0000

  type u64 = x: int | 0 <= x < TWO_64
  type i64 = x: int | -TWO_63 <= x < TWO_63

  /** Go's conversions between int64 and uint64. */
  function ToUnsigned(n: i64): u64 { if n < 0 then n + TWO_64 else n }
  function ToSigned(n: u64): i64 { if n < TWO_63 then n else n - TWO_64 }

  /** They keep the value modulo 2^64, and each lands in its own range. */
  lemma ConversionsWrap(n: u64, i: i64)
    ensures (n - ToSigned(n)) % TWO_64 == 0 && (ToUnsigned(i) - i) % TWO_64 == 0
    ensures ToUnsigned(ToSigned(n)) == n && ToSigned(ToUnsigned(i)) == i
    ensures 2 * TWO_63 == TWO_64
  {
  }

  function Pow(b: nat, k: nat): (r: nat)
    ensures b > 0 ==> r > 0
  {
    if k == 0 then 1 else b * Pow(b, k - 1)
  }

  /** `k` little-endian bytes of `n`. */
  function LittleEndian(n: nat, k: nat): (r: bytes)
    ensures |r| == k
  {
    if k == 0 then [] else [n % 256] + LittleEndian(n / 256, k - 1)
  }

  function FromLittleEndian(s: bytes): (n: nat) {
    if s == [] then 0 else s[0] + 256 * FromLittleEndian(s[1..])
  }

  lemma {:induction false} LittleEndianRoundTrip(n: nat, k: nat)
    requires n < Pow(256, k)
    ensures FromLittleEndian(LittleEndian(n, k)) == n
  {
    if k > 0 {
      LittleEndianRoundTrip(n / 256, k - 1);
      assert LittleEndian(n, k)[1..] == LittleEndian(n / 256, k - 1);
    }
  }

  lemma {:induction false} FromLittleEndianRoundTrip(s: bytes)
    ensures FromLittleEndian(s) < Pow(256, |s|)
    ensures LittleEndian(FromLittleEndian(s), |s|) == s
  {
    if s != [] {
      FromLittleEndianRoundTrip(s[1..]);
      assert s == [s[0]] + s[1..];
    }
  }

  lemma Regroup(a: nat, b: nat, c: nat, d: nat)
    ensures a * (b + c * d) == a * b + (a * c) * d
  {
  }

  /** Least significant first: the bytes behind `a` weigh 256^|a| times as much. */
  lemma {:induction false} LaterBytesWeighMore(a: bytes, b: bytes)
    ensures FromLittleEndian(a + b) == FromLittleEndian(a) + Pow(256, |a|) * FromLittleEndian(b)
    ensures |a| == 1 ==> FromLittleEndian(a) == a[0]
  {
    if a == [] {
      assert a + b == b;
    } else {
      assert (a + b)[1..] == a[1..] + b;
      LaterBytesWeighMore(a[1..], b);
      Regroup(256, FromLittleEndian(a[1..]), Pow(256, |a| - 1), FromLittleEndian(b));
      assert |a| == 1 ==> a[1..] == [];
    }
  }

  lemma Widths()
    ensures Pow(256, 2) == TWO_16
    ensures Pow(256, 8) == TWO_64
  {
    assert Pow(256, 2) == 256 * Pow(256, 1);
    assert Pow(256, 4) == 256 * 256 * Pow(256, 2);
    assert Pow(256, 6) == 256 * 256 * Pow(256, 4);
    assert Pow(256, 8) == 256 * 256 * Pow(256, 6);
  }

  const HEX: string := "0123456789abcdef"

  function Hex(s: bytes): (r: string)
    ensures |r| == 2 * |s|
  {
    if s == [] then "" else [HEX[s[0] / 16], HEX[s[0] % 16]] + Hex(s[1..])
  }

  /** Two lower-case digits a byte, the high one first. */
  lemma {:induction false} HexIs(s: bytes, i: nat)
    requires i < |s|
    ensures var high, low := s[i] / 16, s[i] % 16;
            && Hex(s)[2 * i] as int == (if high < 10 then 0x30 + high else 0x57 + high)
            && Hex(s)[2 * i + 1] as int == (if low < 10 then 0x30 + low else 0x57 + low)
  {
    if i > 0 {
      HexIs(s[1..], i - 1);
      assert Hex(s)[2..] == Hex(s[1..]);
    }
  }

  lemma HexDigitsDiffer(i: nat, j: nat)
    requires i < 16 && j < 16 && HEX[i] == HEX[j]
    ensures i == j
  {
  }

  lemma {:induction false} HexIsInjective(a: bytes, b: bytes)
    requires Hex(a) == Hex(b)
    ensures a == b
  {
    if a == [] || b == [] {
    } else {
      assert Hex(a)[2..] == Hex(a[1..]) && Hex(b)[2..] == Hex(b[1..]);
      assert Hex(a)[0] == HEX[a[0] / 16] && Hex(a)[1] == HEX[a[0] % 16];
      assert Hex(b)[0] == HEX[b[0] / 16] && Hex(b)[1] == HEX[b[0] % 16];
      HexDigitsDiffer(a[0] / 16, b[0] / 16);
      HexDigitsDiffer(a[0] % 16, b[0] % 16);
      HexIsInjective(a[1..], b[1..]);
      assert a == [a[0]] + a[1..] && b == [b[0]] + b[1..];
    }
  }
}
