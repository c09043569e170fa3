/** Base58 without checksum (client/aimless/base58.py): positional notation in base
    58 with leading zero bytes kept as leading '1's. */
module Base58 {
  import opened Bytes

  // ------------------------------------------------------ positional notation

  ghost predicate Digits(d: seq<nat>, base: nat) {
    forall i :: 0 <= i < |d| ==> d[i] < base
  }

  /** The value of big-endian digits. */
  function Value(d: seq<nat>, base: nat): nat {
    if d == [] then 0 else Value(d[..|d| - 1], base) * base + d[|d| - 1]
  }

  lemma Regroup(a: nat, b: nat, c: nat, d: nat)
    ensures (a * b + c) * d == a * (d * b) + c * d
  {
  }

  /** Most significant first: a digit in front weighs base^k before k others. */
  lemma {:induction false} FrontDigitWeighs(x: nat, d: seq<nat>, base: nat)
    ensures Value([x] + d, base) == x * Pow(base, |d|) + Value(d, base)
  {
    var all := [x] + d;
    if d == [] {
      assert all[..0] == [];
      assert Value(all, base) == Value([], base) * base + x;
    } else {
      var init := d[..|d| - 1];
      assert all[..|all| - 1] == [x] + init;
      FrontDigitWeighs(x, init, base);
      Regroup(x, Pow(base, |init|), Value(init, base), base);
    }
  }

  lemma DivisionFacts(n: nat, base: nat)
    requires base >= 2
    ensures n == (n / base) * base + n % base
    ensures n > 0 ==> n / base < n
  {
    var q := n / base;
    if q > 0 { assert q * base >= q * 2; }
  }

  function Quotient(n: nat, base: nat): (q: nat)
    requires base >= 2
    ensures n > 0 ==> q < n
  {
    DivisionFacts(n, base);
    n / base
  }

  function Remainder(n: nat, base: nat): (r: nat)
    requires base >= 2
    ensures r < base
    ensures n == Quotient(n, base) * base + r
  {
    n % base
  }

  lemma ProductGrows(a: nat, b: nat, c: nat)
    requires a <= b
    ensures a * c <= b * c
  {
  }

  lemma DivisionIsUnique(q: nat, r: nat, q': nat, r': nat, base: nat)
    requires r < base && r' < base && q * base + r == q' * base + r'
    ensures q == q' && r == r'
  {
    if q < q' {
      ProductGrows(q + 1, q', base);
    } else if q' < q {
      ProductGrows(q' + 1, q, base);
    }
  }

  lemma QuotientIsUnique(q: nat, base: nat, r: nat)
    requires base >= 2 && r < base
    ensures Quotient(q * base + r, base) == q && Remainder(q * base + r, base) == r
  {
    hide Quotient, Remainder;
    var n := q * base + r;
    DivisionIsUnique(q, r, Quotient(n, base), Remainder(n, base), base);
  }

  /** The shortest big-endian digits of `n`; none for zero. */
  function Shortest(n: nat, base: nat): (r: seq<nat>)
    requires base >= 2
    ensures Digits(r, base)
    ensures n > 0 ==> r != [] && r[0] > 0
    ensures n == 0 ==> r == []
  {
    hide Quotient, Remainder;
    if n == 0 then []
    else Shortest(Quotient(n, base), base) + [Remainder(n, base)]
  }

  lemma {:induction false} ValueOfShortest(n: nat, base: nat)
    requires base >= 2
    ensures Value(Shortest(n, base), base) == n
  {
    hide Quotient, Remainder;
    if n > 0 {
      ValueOfShortest(Quotient(n, base), base);
      var r := Shortest(n, base);
      assert r[..|r| - 1] == Shortest(Quotient(n, base), base);
    }
  }

  lemma ShortestAppends(q: nat, r: nat, base: nat)
    requires base >= 2 && r < base && (q > 0 || r > 0)
    ensures q * base + r > 0
    ensures Shortest(q * base + r, base) == Shortest(q, base) + [r]
  {
    hide Quotient, Remainder;
    QuotientIsUnique(q, base, r);
    if q > 0 { ProductGrows(1, q, base); }
  }

  lemma ValueOfNone(base: nat)
    ensures Value([], base) == 0
  {
  }

  lemma ValueInParts(d: seq<nat>, base: nat)
    requires d != []
    ensures Value(d, base) == Value(d[..|d| - 1], base) * base + d[|d| - 1]
  {
  }

  lemma InitDigits(d: seq<nat>, base: nat)
    requires d != [] && Digits(d, base)
    ensures Digits(d[..|d| - 1], base) && d[|d| - 1] < base
  {
  }

  lemma {:induction false} ShortestOfValue(d: seq<nat>, base: nat)
    requires base >= 2 && Digits(d, base) && (d != [] ==> d[0] > 0)
    ensures Shortest(Value(d, base), base) == d
    ensures d != [] ==> Value(d, base) > 0
  {
    hide Shortest, Digits, Value;
    if d == [] {
      assert Value(d, base) == 0 by { ValueOfNone(base); }
      assert Shortest(0, base) == [];
    } else {
      var init, last := d[..|d| - 1], d[|d| - 1];
      assert d == init + [last];
      assert Digits(init, base) && last < base by { InitDigits(d, base); }
      assert Value(d, base) == Value(init, base) * base + last by { ValueInParts(d, base); }
      ShortestOfValue(init, base);
      ShortestAppends(Value(init, base), last, base);
    }
  }

  function Zeros(k: nat): (r: seq<nat>)
    ensures |r| == k && forall i :: 0 <= i < k ==> r[i] == 0
  {
    seq(k, i => 0)
  }

  function LeadingZeros(d: seq<nat>): (k: nat)
    ensures k <= |d|
    ensures forall i :: 0 <= i < k ==> d[i] == 0
    ensures k < |d| ==> d[k] != 0
  {
    if d == [] || d[0] != 0 then 0 else 1 + LeadingZeros(d[1..])
  }

  lemma {:induction false} ValueIgnoresZeros(k: nat, d: seq<nat>, base: nat)
    ensures Value(Zeros(k) + d, base) == Value(d, base)
  {
    var all := Zeros(k) + d;
    if d != [] {
      assert all[..|all| - 1] == Zeros(k) + d[..|d| - 1];
      ValueIgnoresZeros(k, d[..|d| - 1], base);
    } else {
      assert all == Zeros(k);
      if k > 0 {
        assert Zeros(k)[..k - 1] == Zeros(k - 1) + [];
        ValueIgnoresZeros(k - 1, [], base);
      }
    }
  }

  /** Rewrites digits from one base to another, keeping the number of leading zeros. */
  function Recode(d: seq<nat>, source: nat, target: nat): seq<nat>
    requires target >= 2
  {
    Zeros(LeadingZeros(d)) + Shortest(Value(d, source), target)
  }

  lemma LeadingZerosOfPadded(k: nat, d: seq<nat>)
    requires d != [] ==> d[0] > 0
    ensures LeadingZeros(Zeros(k) + d) == k
  {
    var all := Zeros(k) + d;
    assert forall i :: 0 <= i < k ==> all[i] == 0;
    assert d != [] ==> all[k] == d[0];
  }

  /** Recoding back undoes recoding, for every digit string and every pair of bases. */
  lemma RecodeRoundTrip(d: seq<nat>, source: nat, target: nat)
    requires source >= 2 && target >= 2 && Digits(d, source)
    ensures Recode(Recode(d, source, target), target, source) == d
  {
    var k := LeadingZeros(d);
    var body := d[k..];
    assert d == Zeros(k) + body;
    var n := Value(d, source);
    ValueIgnoresZeros(k, body, source);
    ShortestOfValue(body, source);
    LeadingZerosOfPadded(k, Shortest(n, target));
    ValueIgnoresZeros(k, Shortest(n, target), target);
    ValueOfShortest(n, target);
  }

  // ---------------------------------------------------------------- the alphabet

  const ALPHABET: string :=
    "123456789" + "ABCDEFGH" + "JKLMN" + "PQRSTUVWXYZ" + "abcdefghijk" + "mnopqrstuvwxyz"

  lemma AlphabetIs(d: nat)
    requires d < 58
    ensures |ALPHABET| == 58
    ensures ALPHABET[d] as int ==
            if d < 9 then 49 + d else if d < 17 then 56 + d else if d < 22 then 57 + d
            else if d < 33 then 58 + d else if d < 44 then 64 + d else 65 + d
  {
    if d < 9 { assert ALPHABET[d] == "123456789"[d]; }
    else if d < 17 { assert ALPHABET[d] == "ABCDEFGH"[d - 9]; }
    else if d < 22 { assert ALPHABET[d] == "JKLMN"[d - 17]; }
    else if d < 33 { assert ALPHABET[d] == "PQRSTUVWXYZ"[d - 22]; }
    else if d < 44 { assert ALPHABET[d] == "abcdefghijk"[d - 33]; }
    else { assert ALPHABET[d] == "mnopqrstuvwxyz"[d - 44]; }
  }

  /** The digit of a character, if it is in the alphabet. */
  function IndexOf(c: char): (r: Option<nat>)
    ensures r.Some? ==> r.value < 58
  {
    var n := c as int;
    if 49 <= n <= 57 then Some(n - 49)
    else if 65 <= n <= 72 then Some(n - 56)
    else if 74 <= n <= 78 then Some(n - 57)
    else if 80 <= n <= 90 then Some(n - 58)
    else if 97 <= n <= 107 then Some(n - 64)
    else if 109 <= n <= 122 then Some(n - 65)
    else None
  }

  function Symbol(d: nat): (c: char)
    requires d < 58
    ensures IndexOf(c) == Some(d)
  {
    AlphabetIs(d);
    ALPHABET[d]
  }

  lemma SymbolOfIndex(c: char)
    requires IndexOf(c).Some?
    ensures Symbol(IndexOf(c).value) == c
  {
    AlphabetIs(IndexOf(c).value);
  }

  function Symbols(d: seq<nat>): (r: string)
    requires Digits(d, 58)
    ensures |r| == |d| && forall i :: 0 <= i < |d| ==> r[i] == Symbol(d[i])
  {
    if d == [] then [] else Symbols(d[..|d| - 1]) + [Symbol(d[|d| - 1])]
  }

  ghost predicate InAlphabet(text: string) {
    forall i :: 0 <= i < |text| ==> IndexOf(text[i]).Some?
  }

  ghost function Indices(text: string): (r: seq<nat>)
    requires InAlphabet(text)
    ensures |r| == |text| && forall i :: 0 <= i < |text| ==> r[i] == IndexOf(text[i]).value
    ensures Digits(r, 58)
  {
    seq(|text|, i requires 0 <= i < |text| => IndexOf(text[i]).value)
  }

  // ------------------------------------------------------------------- the codec

  lemma RecodeHasDigits(d: seq<nat>, source: nat, target: nat)
    requires target >= 2
    ensures Digits(Recode(d, source, target), target)
  {
  }

  function Encode(data: bytes): string {
    RecodeHasDigits(data, 256, 58);
    Symbols(Recode(data, 256, 58))
  }

  function ToBytes(d: seq<nat>): (r: bytes)
    requires Digits(d, 256)
    ensures r == d
  {
    d
  }

  ghost function Decode(text: string): Result<bytes> {
    if InAlphabet(text) then
      RecodeHasDigits(Indices(text), 58, 256);
      Ok(ToBytes(Recode(Indices(text), 58, 256)))
    else Err
  }

  /** Every byte string survives, leading zeros included. */
  lemma DecodeEncode(data: bytes)
    ensures Decode(Encode(data)) == Ok(data)
  {
    var d: seq<nat> := data;
    RecodeHasDigits(d, 256, 58);
    RecodeRoundTrip(d, 256, 58);
    assert Indices(Encode(data)) == Recode(d, 256, 58);
  }

  /** Decoding accepts exactly the strings over the alphabet, and each is the encoding
      of what it decodes to: the codec is a bijection. */
  lemma EncodeDecode(text: string)
    ensures Decode(text).Ok? <==> InAlphabet(text)
    ensures Decode(text).Ok? ==> Encode(Decode(text).value) == text
  {
    if InAlphabet(text) {
      var d := Indices(text);
      RecodeHasDigits(d, 58, 256);
      RecodeRoundTrip(d, 58, 256);
      forall i | 0 <= i < |text| ensures Symbol(d[i]) == text[i] { SymbolOfIndex(text[i]); }
      assert Encode(Decode(text).value) == Symbols(d);
    }
  }

  // -------------------------------------------------------------- the two loops

  function Reverse(s: string): (r: string)
    ensures |r| == |s|
  {
    if s == [] then [] else [s[|s| - 1]] + Reverse(s[..|s| - 1])
  }

  /** The padding loop of both directions. */
  method CountLeading<T(==)>(s: seq<T>, x: T) returns (pad: nat)
    ensures pad <= |s|
    ensures forall i :: 0 <= i < pad ==> s[i] == x
    ensures pad < |s| ==> s[pad] != x
  {
    pad := 0;
    for i := 0 to |s|
      invariant pad == i
      invariant forall k :: 0 <= k < i ==> s[k] == x
    {
      if s[i] == x {
        pad := pad + 1;
      } else {
        break;
      }
    }
  }

  lemma LeadingZerosIs(d: seq<nat>, pad: nat)
    requires pad <= |d| && (forall i :: 0 <= i < pad ==> d[i] == 0) && (pad < |d| ==> d[pad] != 0)
    ensures LeadingZeros(d) == pad
  {
  }

  lemma {:induction false} SymbolsConcat(a: seq<nat>, b: seq<nat>)
    requires Digits(a, 58) && Digits(b, 58)
    ensures Digits(a + b, 58) && Symbols(a + b) == Symbols(a) + Symbols(b)
  {
  }

  lemma ReverseAppend(s: string, c: char)
    ensures Reverse(s + [c]) == [c] + Reverse(s)
  {
    assert (s + [c])[..|s|] == s;
  }

  lemma NextDigit(n: nat)
    requires n > 0
    ensures Symbols(Shortest(n, 58)) == Symbols(Shortest(Quotient(n, 58), 58)) + [Symbol(Remainder(n, 58))]
  {
    hide Quotient, Remainder, Symbol;
    var q := Shortest(Quotient(n, 58), 58);
    assert (q + [Remainder(n, 58)])[..|q|] == q;
  }

  /** The digit loop: least significant first. */
  method DigitLoop(value: nat) returns (out: string)
    ensures Reverse(out) == Symbols(Shortest(value, 58))
  {
    hide Quotient, Remainder, Symbol, Symbols, Shortest, Reverse;
    out := "";
    assert Reverse("") == "";
    assert Symbols([]) == "" && Shortest(0, 58) == [];
    var n := value;
    while n != 0
      invariant Symbols(Shortest(value, 58)) == Symbols(Shortest(n, 58)) + Reverse(out)
    {
      var c := Symbol(Remainder(n, 58));
      NextDigit(n);
      ReverseAppend(out, c);
      ghost var q := Symbols(Shortest(Quotient(n, 58), 58));
      assert (q + [c]) + Reverse(out) == q + ([c] + Reverse(out));
      out := out + [c];
      n := Quotient(n, 58);
    }
  }

  lemma EncodeInParts(data: bytes, pad: nat)
    requires pad == LeadingZeros(data)
    ensures Encode(data) == seq(pad, i => '1') + Symbols(Shortest(Value(data, 256), 58))
  {
    SymbolsConcat(Zeros(pad), Shortest(Value(data, 256), 58));
    AlphabetIs(0);
    assert Symbols(Zeros(pad)) == seq(pad, i => '1');
  }

  method B58Encode(data: bytes) returns (r: string)
    ensures r == Encode(data)
  {
    hide Symbols, Shortest, Value, Encode;
    var out := DigitLoop(Value(data, 256));
    var pad := CountLeading(data, 0);
    LeadingZerosIs(data, pad);
    EncodeInParts(data, pad);
    r := seq(pad, i => '1') + Reverse(out);
  }

  /** int.bit_length. */
  function BitLength(n: nat): nat {
    if n == 0 then 0 else 1 + BitLength(n / 2)
  }

  /** int.to_bytes(length, "big"), for a value that fits. */
  function BigEndian(n: nat, length: nat): seq<nat> {
    if length == 0 then [] else BigEndian(n / 256, length - 1) + [n % 256]
  }

  lemma BitLengthOfByte(n: nat)
    requires 0 < n < 256
    ensures 1 <= BitLength(n) <= 8
  {
    assert n / 2 < 128 && n / 4 < 64 && n / 8 < 32 && n / 16 < 16 && n / 32 < 8 && n / 64 < 4 && n / 128 < 2;
    assert BitLength(n / 64) <= 2;
    assert BitLength(n / 16) <= 4;
    assert BitLength(n / 4) <= 6;
  }

  lemma Quarter(n: nat)
    requires n >= 2
    ensures BitLength(n) == 2 + BitLength(n / 4)
  {
    assert n / 2 / 2 == n / 4;
  }

  lemma BitLengthByByte(n: nat)
    requires n >= 256
    ensures BitLength(n) == 8 + BitLength(n / 256)
  {
    Quarter(n);
    Quarter(n / 4);
    Quarter(n / 16);
    Quarter(n / 64);
    hide BitLength;
    assert n / 4 / 4 == n / 16 && n / 16 / 4 == n / 64 && n / 64 / 4 == n / 256;
  }

  /** The length Python computes is the least number of bytes that holds `n`. */
  lemma {:induction false} ByteLength(n: nat)
    ensures (BitLength(n) + 7) / 8 == |Shortest(n, 256)|
    ensures BigEndian(n, |Shortest(n, 256)|) == Shortest(n, 256)
  {
    if n > 0 {
      ByteLength(n / 256);
      if n < 256 { BitLengthOfByte(n); } else { BitLengthByByte(n); }
    }
  }

  lemma ValueAppends(d: seq<nat>, x: nat, base: nat)
    ensures Value(d + [x], base) == Value(d, base) * base + x
  {
    assert (d + [x])[..|d|] == d;
  }

  /** The accumulation loop; a character outside the alphabet raises. */
  method ValueLoop(text: string) returns (r: Result<nat>)
    ensures r.Ok? <==> InAlphabet(text)
    ensures r.Ok? ==> r.value == Value(Indices(text), 58)
  {
    hide Value;
    var n := 0;
    ValueOfNone(58);
    for i := 0 to |text|
      invariant InAlphabet(text[..i]) && n == Value(Indices(text[..i]), 58)
    {
      var digit := IndexOf(text[i]);
      if digit.None? {
        return Err;
      }
      ValueAppends(Indices(text[..i]), digit.value, 58);
      assert Indices(text[..i + 1]) == Indices(text[..i]) + [digit.value];
      n := n * 58 + digit.value;
    }
    assert text[..|text|] == text;
    return Ok(n);
  }

  lemma LeadingOnesIs(text: string, pad: nat)
    requires InAlphabet(text)
    requires pad <= |text| && (forall i :: 0 <= i < pad ==> text[i] == '1') && (pad < |text| ==> text[pad] != '1')
    ensures LeadingZeros(Indices(text)) == pad
  {
    LeadingZerosIs(Indices(text), pad);
  }

  method B58Decode(text: string) returns (r: Result<bytes>)
    ensures r == Decode(text)
  {
    hide Value, Shortest;
    var value := ValueLoop(text);
    if value.Err? {
      return Err;
    }
    var n := value.value;
    ByteLength(n);
    var body := BigEndian(n, (BitLength(n) + 7) / 8);
    var pad := CountLeading(text, '1');
    LeadingOnesIs(text, pad);
    RecodeHasDigits(Indices(text), 58, 256);
    hide BigEndian, BitLength, LeadingZeros, Indices, InAlphabet;
    r := Ok(ToBytes(Zeros(pad) + body));
  }
}
