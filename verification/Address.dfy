/** The Yggdrasil address of a public key (client/aimless/keys.py): invert the key,
    count its leading ones, and pack the bits after the first zero. */
module Addresses {
  import opened Bytes

  const KEY_SIZE: nat := 32

  /** 0x80 >> k. */
  function Weight(k: nat): nat
    requires k < 8
  {
    [128, 64, 32, 16, 8, 4, 2, 1][k]
  }

  function BitOf(b: byte, k: nat): (r: nat)
    requires k < 8
    ensures r < 2
  {
    (b / Weight(k)) % 2
  }

  ghost predicate Binary(bits: seq<nat>) {
    forall i :: 0 <= i < |bits| ==> bits[i] < 2
  }

  /** The bits of the inverted key, most significant first. */
  function InvertedBits(key: bytes): (r: seq<nat>)
    ensures |r| == 8 * |key| && Binary(r)
    ensures forall i :: 0 <= i < |r| ==> r[i] == BitOf(255 - key[i / 8], i % 8)
  {
    seq(8 * |key|, i requires 0 <= i < 8 * |key| => BitOf(255 - key[i / 8], i % 8))
  }

  function LeadingOnes(bits: seq<nat>): (n: nat)
    ensures n <= |bits|
    ensures forall i :: 0 <= i < n ==> bits[i] != 0
    ensures n < |bits| ==> bits[n] == 0
  {
    if bits == [] || bits[0] == 0 then 0 else 1 + LeadingOnes(bits[1..])
  }

  /** What follows the first zero. */
  function Rest(bits: seq<nat>): seq<nat> {
    if LeadingOnes(bits) < |bits| then bits[LeadingOnes(bits) + 1..] else []
  }

  function Number(bits: seq<nat>): nat {
    if bits == [] then 0 else 2 * Number(bits[..|bits| - 1]) + bits[|bits| - 1]
  }

  lemma NumberAppends(bits: seq<nat>, b: nat)
    ensures Number(bits + [b]) == 2 * Number(bits) + b
  {
    assert (bits + [b])[..|bits|] == bits;
  }

  lemma NextPrefix(bits: seq<nat>, k: nat)
    requires k < |bits|
    ensures Number(bits[..k + 1]) == 2 * Number(bits[..k]) + bits[k]
  {
    assert bits[..k + 1] == bits[..k] + [bits[k]];
    NumberAppends(bits[..k], bits[k]);
  }

  /** Eight bits as a byte, most significant first. */
  function ByteValue(b: seq<nat>): nat
    requires |b| == 8
  {
    128 * b[0] + 64 * b[1] + 32 * b[2] + 16 * b[3] + 8 * b[4] + 4 * b[5] + 2 * b[6] + b[7]
  }

  lemma EightMore(bits: seq<nat>, m: nat)
    requires |bits| == m + 8
    ensures Number(bits) == 256 * Number(bits[..m]) + ByteValue(bits[m..])
  {
    hide Number;
    NextPrefix(bits, m);
    NextPrefix(bits, m + 1);
    NextPrefix(bits, m + 2);
    NextPrefix(bits, m + 3);
    NextPrefix(bits, m + 4);
    NextPrefix(bits, m + 5);
    NextPrefix(bits, m + 6);
    NextPrefix(bits, m + 7);
    assert bits[..m + 8] == bits;
  }

  lemma Halves(b: byte)
    ensures b / 4 == b / 2 / 2 && b / 8 == b / 4 / 2 && b / 16 == b / 8 / 2 && b / 32 == b / 16 / 2
    ensures b / 64 == b / 32 / 2 && b / 128 == b / 64 / 2 && b / 128 < 2
  {
  }

  /** A number below 2^8, half by half. */
  lemma EightHalves(b: nat, b1: nat, b2: nat, b3: nat, b4: nat, b5: nat, b6: nat, b7: nat)
    requires b1 == b / 2 && b2 == b1 / 2 && b3 == b2 / 2 && b4 == b3 / 2
    requires b5 == b4 / 2 && b6 == b5 / 2 && b7 == b6 / 2 && b7 < 2
    ensures 128 * b7 + 64 * (b6 % 2) + 32 * (b5 % 2) + 16 * (b4 % 2)
            + 8 * (b3 % 2) + 4 * (b2 % 2) + 2 * (b1 % 2) + b % 2 == b
  {
  }

  lemma EachBit(b: byte)
    ensures BitOf(b, 0) == b / 128 % 2 && BitOf(b, 1) == b / 64 % 2 && BitOf(b, 2) == b / 32 % 2
    ensures BitOf(b, 3) == b / 16 % 2 && BitOf(b, 4) == b / 8 % 2 && BitOf(b, 5) == b / 4 % 2
    ensures BitOf(b, 6) == b / 2 % 2 && BitOf(b, 7) == b % 2
  {
  }

  lemma BitsOfByte(b: byte)
    ensures 128 * BitOf(b, 0) + 64 * BitOf(b, 1) + 32 * BitOf(b, 2) + 16 * BitOf(b, 3)
            + 8 * BitOf(b, 4) + 4 * BitOf(b, 5) + 2 * BitOf(b, 6) + BitOf(b, 7) == b
  {
    EachBit(b);
    hide BitOf;
    Halves(b);
    EightHalves(b, b / 2, b / 4, b / 8, b / 16, b / 32, b / 64, b / 128);
  }

  /** Eight bits of the inverted key spell the complement of their byte. */
  lemma InvertedByte(key: bytes, j: nat)
    requires j < |key|
    ensures ByteValue(InvertedBits(key)[8 * j..8 * j + 8]) == 255 - key[j]
  {
    hide BitOf;
    var bits := InvertedBits(key)[8 * j..8 * j + 8];
    forall i | 0 <= i < 8 ensures bits[i] == BitOf(255 - key[j], i) {
      assert bits[i] == InvertedBits(key)[8 * j + i];
      assert (8 * j + i) / 8 == j && (8 * j + i) % 8 == i;
    }
    BitsOfByte(255 - key[j]);
  }

  /** The big-endian number a byte string spells. */
  function BigEndianValue(b: seq<nat>): nat {
    if b == [] then 0 else 256 * BigEndianValue(b[..|b| - 1]) + b[|b| - 1]
  }

  lemma InitialBits(key: bytes, m: nat)
    requires m <= |key|
    ensures InvertedBits(key)[..8 * m] == InvertedBits(key[..m])
  {
    hide InvertedBits, BitOf;
    forall i | 0 <= i < 8 * m ensures InvertedBits(key)[i] == InvertedBits(key[..m])[i] {
      assert i / 8 < m;
    }
  }

  /** As one number, most significant bit first, the bits are the complement of the key. */
  lemma {:induction false} InvertedKey(key: bytes)
    ensures Number(InvertedBits(key)) + BigEndianValue(key) + 1 == Pow(256, |key|)
  {
    hide Number, ByteValue, InvertedBits, BitOf;
    if key == [] {
      assert Number(InvertedBits(key)) == 0 by { assert InvertedBits(key) == []; NothingIsZero(); }
    } else {
      var m := |key| - 1;
      var init, bits := key[..m], InvertedBits(key);
      InvertedKey(init);
      EightMore(bits, 8 * m);
      InvertedByte(key, m);
      assert bits[8 * m..] == bits[8 * m..8 * m + 8];
      InitialBits(key, m);
    }
  }

  /** The leading ones, the first zero, and what follows it make up the bits. */
  lemma {:induction false} FirstZeroSplits(bits: seq<nat>)
    ensures if forall i :: 0 <= i < |bits| ==> bits[i] != 0 then
              LeadingOnes(bits) == |bits| && Rest(bits) == []
            else
              LeadingOnes(bits) < |bits| && bits == bits[..LeadingOnes(bits)] + [0] + Rest(bits)
  {
    var n := LeadingOnes(bits);
    if n < |bits| {
      assert bits == bits[..n] + [bits[n]] + bits[n + 1..];
    }
  }

  /** The packed bytes spell the first whole bytes of the rest, most significant bit first. */
  lemma {:induction false} PackedSpells(rest: seq<nat>, m: nat)
    requires 8 * m <= |rest|
    ensures Number(rest[..8 * m]) == BigEndianValue(seq(m, j requires 0 <= j < m => PackedByte(rest, j)))
  {
    hide Number, ByteValue;
    if m == 0 {
      assert rest[..0] == [];
      NothingIsZero();
    } else {
      var n := m - 1;
      var packed := seq(m, j requires 0 <= j < m => PackedByte(rest, j));
      PackedSpells(rest, n);
      assert packed[..n] == seq(n, j requires 0 <= j < n => PackedByte(rest, j));
      var whole := rest[..8 * m];
      EightMore(whole, 8 * n);
      assert whole[..8 * n] == rest[..8 * n] && whole[8 * n..] == rest[8 * n..8 * n + 8];
    }
  }

  /** An 8-bit shift register holds the last eight bits shifted in. */
  lemma LastEight(bits: seq<nat>)
    requires |bits| >= 8 && Binary(bits)
    ensures Number(bits) % 256 == ByteValue(bits[|bits| - 8..]) < 256
  {
    hide Number;
    EightMore(bits, |bits| - 8);
  }

  function ByteAt(rest: seq<nat>, j: nat): nat
    requires 8 * j + 8 <= |rest|
  {
    ByteValue(rest[8 * j..8 * j + 8])
  }

  /** The packed byte at position `j`, zero when fewer bits are left. */
  function PackedByte(rest: seq<nat>, j: nat): nat {
    if 8 * j + 8 <= |rest| then ByteAt(rest, j) else 0
  }

  ghost predicate Packed(temp: seq<byte>, rest: seq<nat>) {
    && 8 * |temp| <= |rest| < 8 * |temp| + 8
    && forall j :: 0 <= j < |temp| ==> temp[j] == ByteAt(rest, j)
  }

  /** The loop's variables after the first `i` bits. */
  ghost predicate Scanned(all: seq<nat>, i: nat, done: bool, ones: byte, acc: byte, nbits: nat, temp: seq<byte>)
    requires i <= |all|
  {
    var lead := LeadingOnes(all);
    && ones == (if lead < i then lead else i) % 256
    && (done <==> lead < i)
    && var rest := if done then all[lead + 1..i] else [];
    && acc == Number(rest) % 256 && 8 * |temp| + nbits == |rest| && nbits < 8 && Packed(temp, rest)
  }

  lemma ByteAtStays(rest: seq<nat>, b: nat, j: nat)
    requires 8 * j + 8 <= |rest|
    ensures ByteAt(rest + [b], j) == ByteAt(rest, j)
  {
    hide ByteValue;
    assert (rest + [b])[8 * j..8 * j + 8] == rest[8 * j..8 * j + 8];
  }

  lemma LastByte(bits: seq<nat>, j: nat)
    requires Binary(bits) && |bits| == 8 * j + 8
    ensures Number(bits) % 256 == ByteAt(bits, j)
  {
    hide Number, ByteValue;
    LastEight(bits);
    assert bits[|bits| - 8..] == bits[8 * j..8 * j + 8];
  }

  lemma PackedGrows(temp: seq<byte>, rest: seq<nat>, b: nat)
    requires Packed(temp, rest) && Binary(rest) && b < 2
    ensures |rest| + 1 != 8 * |temp| + 8 ==> Packed(temp, rest + [b])
    ensures |rest| + 1 == 8 * |temp| + 8 ==> Packed(temp + [Number(rest + [b]) % 256], rest + [b])
  {
    hide Number, ByteAt;
    var longer := rest + [b];
    forall j | 0 <= j < |temp| ensures ByteAt(longer, j) == ByteAt(rest, j) { ByteAtStays(rest, b, j); }
    if |longer| == 8 * |temp| + 8 {
      LastByte(longer, |temp|);
    }
  }

  lemma SkipBit(all: seq<nat>, i: nat, ones: byte, acc: byte, nbits: nat, temp: seq<byte>)
    requires i < |all| && Scanned(all, i, false, ones, acc, nbits, temp)
    ensures all[i] != 0 ==> Scanned(all, i + 1, false, (ones + 1) % 256, acc, nbits, temp)
    ensures all[i] == 0 ==> Scanned(all, i + 1, true, ones, acc, nbits, temp)
  {
    hide Number, ByteValue;
    assert all[i] != 0 ==> LeadingOnes(all) > i;
    assert all[i] == 0 ==> LeadingOnes(all) == i && all[i + 1..i + 1] == [];
  }

  lemma BinaryParts(all: seq<nat>, a: nat, i: nat)
    requires Binary(all) && a <= i < |all|
    ensures all[i] < 2 && Binary(all[a..i])
  {
  }

  lemma ShiftBit(all: seq<nat>, i: nat, ones: byte, acc: byte, nbits: nat, temp: seq<byte>)
    requires i < |all| && Binary(all) && Scanned(all, i, true, ones, acc, nbits, temp)
    ensures var acc' := (2 * acc + all[i]) % 256;
            if nbits == 7 then Scanned(all, i + 1, true, ones, acc', 0, temp + [acc'])
            else Scanned(all, i + 1, true, ones, acc', nbits + 1, temp)
  {
    hide Number, ByteValue, LeadingOnes, Packed, Binary;
    var lead := LeadingOnes(all);
    BinaryParts(all, lead + 1, i);
    var rest := all[lead + 1..i];
    assert all[lead + 1..i + 1] == rest + [all[i]];
    NumberAppends(rest, all[i]);
    PackedGrows(temp, rest, all[i]);
    ShiftMod(Number(rest), all[i]);
  }

  lemma ShiftMod(n: nat, b: nat)
    ensures (2 * (n % 256) + b) % 256 == (2 * n + b) % 256
  {
  }

  method Scan(all: seq<nat>) returns (ones: byte, temp: seq<byte>)
    requires Binary(all)
    ensures ones == LeadingOnes(all) % 256
    ensures Packed(temp, Rest(all))
  {
    hide Number, ByteValue;
    temp, ones := [], 0;
    var done, nbits := false, 0;
    var acc: byte := 0;
    assert Number([]) == 0 by { NothingIsZero(); }
    for i := 0 to |all|
      invariant Scanned(all, i, done, ones, acc, nbits, temp)
    {
      hide Scanned;
      var bit := all[i];
      if !done {
        SkipBit(all, i, ones, acc, nbits, temp);
      } else {
        ShiftBit(all, i, ones, acc, nbits, temp);
      }
      if !done && bit != 0 {
        ones := (ones + 1) % 256;
        continue;
      }
      if !done && bit == 0 {
        done := true;
        continue;
      }
      acc := (2 * acc + bit) % 256;
      nbits := nbits + 1;
      if nbits == 8 {
        nbits := 0;
        temp := temp + [acc];
      }
    }
    assert LeadingOnes(all) < |all| ==> all[LeadingOnes(all) + 1..|all|] == Rest(all);
  }

  lemma NothingIsZero()
    ensures Number([]) == 0
  {
  }

  /** The 16 address bytes: prefix 0x02, the count of leading ones mod 256, then the
      first 14 whole bytes after the first zero, zero-filled. */
  method Address(key: bytes) returns (r: Result<seq<byte>>)
    ensures r.Ok? <==> |key| == 32
    ensures r.Ok? ==>
              var bits := InvertedBits(key);
              && |r.value| == 16 && r.value[0] == 0x02
              && r.value[1] == LeadingOnes(bits) % 256
              && (forall k :: 2 <= k < 16 ==> r.value[k] == PackedByte(Rest(bits), k - 2))
              && forall k :: 2 <= k < 16 && 8 * (k - 1) > |Rest(bits)| ==> r.value[k] == 0
  {
    hide InvertedBits, LeadingOnes, ByteValue, Rest;
    if |key| != KEY_SIZE {
      return Err;
    }
    var ones, temp := Scan(InvertedBits(key));
    var addr: seq<byte> := seq(16, i => 0);
    addr := addr[0 := 0x02][1 := ones];
    ghost var rest := Rest(InvertedBits(key));
    for i := 0 to |temp|
      invariant |addr| == 16 && addr[0] == 0x02 && addr[1] == ones
      invariant forall k :: 2 <= k < 16 ==> addr[k] == if k - 2 < i then temp[k - 2] else 0
    {
      if 2 + i < 16 {
        addr := addr[2 + i := temp[i]];
      }
    }
    return Ok(addr);
  }
}
