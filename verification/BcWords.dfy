/** Words of a bytecode dump: ULEB128 numbers, their 33 bit form, and doubles that are integers. */
module BcWords {
  import opened Options
  import opened Arith

  type byte = n: nat | n < 256
  type u16 = n: nat | n < 0x1_0000
  type u32 = n: nat | n < 0x1_0000_0000

  datatype Error = BadFormat | BadCode | BadKey | PastEnd

  datatype Res<T> = Got(v: T, rest: seq<byte>) | Bad(e: Error)

  // ---- ULEB128 ---------------------------------------------------------------------

  function Uleb(v: nat): (r: seq<byte>)
    ensures |r| >= 1
  {
    if v < 0x80 then [v] else [v % 0x80 + 0x80] + Uleb(v / 0x80)
  }

  function Pow128(n: nat): nat
  {
    if n == 0 then 1 else 0x80 * Pow128(n - 1)
  }

  /** The number that at most n bytes spell, before it is cut to the width of a word. */
  function Spelt(s: seq<byte>, n: nat): Res<nat>
  {
    if n == 0 || s == [] then Bad(PastEnd)
    else if s[0] < 0x80 then Got(s[0], s[1..])
    else
      match Spelt(s[1..], n - 1)
      case Bad(e) => Bad(e)
      case Got(v, rest) => Got(s[0] % 0x80 + 0x80 * v, rest)
  }

  function ReadUleb(s: seq<byte>): Res<u32>
  {
    match Spelt(s, 5)
    case Bad(e) => Bad(e)
    case Got(v, rest) => Got(v % 0x1_0000_0000, rest)
  }

  /** The top 32 bits of a 33 bit number. */
  function ReadUleb33(s: seq<byte>): Res<u32>
  {
    match Spelt(s, 5)
    case Bad(e) => Bad(e)
    case Got(v, rest) => Got((v / 2) % 0x1_0000_0000, rest)
  }

  lemma {:induction false} SpeltBack(v: nat, n: nat, rest: seq<byte>)
    requires n >= 1 && v < Pow128(n)
    ensures Spelt(Uleb(v) + rest, n) == Got(v, rest)
  {
    var s := Uleb(v) + rest;
    if v < 0x80 {
      assert s[0] == v && s[1..] == rest;
    } else {
      SpeltBack(v / 0x80, n - 1, rest);
      assert s[0] == v % 0x80 + 0x80 && s[1..] == Uleb(v / 0x80) + rest;
    }
  }

  lemma FiveBytes()
    ensures Pow128(5) == 0x8_0000_0000
  {
    assert Pow128(1) == 0x80;
    assert Pow128(2) == 0x4000;
    assert Pow128(3) == 0x20_0000;
    assert Pow128(4) == 0x1000_0000;
  }

  /** A word is read back, and exactly its own bytes are consumed. */
  lemma UlebBack(v: u32, rest: seq<byte>)
    ensures ReadUleb(Uleb(v) + rest) == Got(v, rest)
  {
    FiveBytes();
    hide Spelt, Uleb, Pow128;
    SpeltBack(v, 5, rest);
  }

  lemma Uleb33Back(x: u32, lsb: nat, rest: seq<byte>)
    requires lsb < 2
    ensures ReadUleb33(Uleb(2 * x + lsb) + rest) == Got(x, rest)
    ensures (Uleb(2 * x + lsb) + rest)[0] % 2 == lsb
  {
    FiveBytes();
    assert Uleb(2 * x + lsb)[0] % 2 == lsb;
    hide Spelt, Uleb, Pow128;
    SpeltBack(2 * x + lsb, 5, rest);
  }

  /** The first byte's lowest bit is the number's. */
  lemma Lowest(s: seq<byte>, n: nat)
    requires Spelt(s, n).Got?
    ensures s != [] && s[0] % 2 == Spelt(s, n).v % 2
  {
  }

  // ---- The 33 bit form, as it is written ---------------------------------------------

  /** The word that is written first: twice x, with the top bit kept. */
  function Folded(x: u32, lsb: nat): u32
    requires lsb < 2
  {
    (2 * x) % 0x8000_0000 + (if x >= 0x8000_0000 || (2 * x) % 0x1_0000_0000 >= 0x8000_0000 then 0x8000_0000
      else 0) + lsb
  }

  /** What the last byte is patched to: bits 27 to 31 of x. */
  function PatchedByte(b: byte, x: u32): byte
  {
    b % 8 + (x / 0x800_0000 / 8) % 4 * 8
  }

  lemma UlebFive(v: nat)
    requires 0x1000_0000 <= v < 0x8_0000_0000
    ensures Uleb(v) == [v % 0x80 + 0x80, v / 0x80 % 0x80 + 0x80, v / 0x4000 % 0x80 + 0x80, v / 0x20_0000 % 0x80 + 0x80,
      v / 0x1000_0000]
  {
    var a, b, c, d := v / 0x80, v / 0x4000, v / 0x20_0000, v / 0x1000_0000;
    assert a / 0x80 == b && b / 0x80 == c && c / 0x80 == d;
    assert d < 0x80 && c >= 0x80 && b >= 0x80 && a >= 0x80;
    assert Uleb(d) == [d];
    assert Uleb(c) == [c % 0x80 + 0x80, d];
    assert Uleb(b) == [b % 0x80 + 0x80, c % 0x80 + 0x80, d];
    assert Uleb(a) == [a % 0x80 + 0x80, b % 0x80 + 0x80, c % 0x80 + 0x80, d];
  }

  /** Patching the fifth byte in place gives the 33 bit number's own encoding. */
  lemma PatchIsRight(x: u32, lsb: nat)
    requires lsb < 2
    ensures x < 0x8000_0000 ==> Uleb(Folded(x, lsb)) == Uleb(2 * x + lsb)
    ensures x >= 0x8000_0000 ==>
      (var u := Uleb(Folded(x, lsb)); |u| == 5 && u[4 := PatchedByte(u[4], x)] == Uleb(2 * x + lsb))
  {
    if x >= 0x8000_0000 {
      var f, w := Folded(x, lsb), 2 * x + lsb;
      UlebFive(f);
      UlebFive(w);
      LowBits(x, lsb);
    } else {
      assert Folded(x, lsb) == 2 * x + lsb;
    }
  }

  lemma LowBits(x: u32, lsb: nat)
    requires lsb < 2 && x >= 0x8000_0000
    ensures var f, w := Folded(x, lsb), 2 * x + lsb;
      f % 0x80 == w % 0x80 && f / 0x80 % 0x80 == w / 0x80 % 0x80 && f / 0x4000 % 0x80 == w / 0x4000 % 0x80 &&
      f / 0x20_0000 % 0x80 == w / 0x20_0000 % 0x80 && f / 0x1000_0000 < 256 &&
        PatchedByte(f / 0x1000_0000, x) == w / 0x1000_0000
  {
    var f, w := Folded(x, lsb), 2 * x + lsb;
    var q, r := w / 0x1000_0000, w % 0x1000_0000;
    HighBits(x, lsb);
    Digits(8 + q % 8, r);
    Digits(q, r);
  }

  lemma HighBits(x: u32, lsb: nat)
    requires lsb < 2 && x >= 0x8000_0000
    ensures var f, w := Folded(x, lsb), 2 * x + lsb; var q, r := w / 0x1000_0000, w % 0x1000_0000;
      f == 0x1000_0000 * (8 + q % 8) + r && w == 0x1000_0000 * q + r && 16 <= q < 32 && q == x / 0x800_0000 &&
      8 + q % 8 < 256 && PatchedByte(8 + q % 8, x) == q
  {
    var y := x - 0x8000_0000;
    assert Folded(x, lsb) == (2 * y) % 0x8000_0000 + 0x8000_0000 + lsb;
  }

  lemma Digits(a: nat, r: nat)
    requires r < 0x1000_0000
    ensures var n := 0x1000_0000 * a + r;
      n % 0x80 == r % 0x80 && n / 0x80 % 0x80 == r / 0x80 % 0x80 && n / 0x4000 % 0x80 == r / 0x4000 % 0x80 &&
      n / 0x20_0000 % 0x80 == r / 0x20_0000 % 0x80 && n / 0x1000_0000 == a
  {
    Shift(0x20_0000 * a, r);
    Shift(0x4000 * a, r / 0x80);
    Shift(0x80 * a, r / 0x4000);
    Shift(a, r / 0x20_0000);
    Quarters(0x1000_0000 * a + r);
    Quarters(r);
  }

  lemma Shift(x: nat, r: nat)
    ensures (0x80 * x + r) / 0x80 == x + r / 0x80 && (0x80 * x + r) % 0x80 == r % 0x80
  {
  }

  lemma Quarters(n: nat)
    ensures n / 0x80 / 0x80 == n / 0x4000 && n / 0x4000 / 0x80 == n / 0x20_0000 &&
      n / 0x20_0000 / 0x80 == n / 0x1000_0000
  {
  }

  // ---- The length in front of a prototype ---------------------------------------------

  function LengthBytes(n: nat): nat
    requires n > 0
  {
    (Fls(n) + 8) * 9 / 64
  }

  lemma {:induction false} FlsHalves(n: nat)
    requires n >= 0x80
    ensures Fls(n) == 7 + Fls(n / 0x80)
  {
    assert n / 2 / 2 / 2 / 2 / 2 / 2 / 2 == n / 0x80;
    assert Fls(n) == 1 + Fls(n / 2);
    assert Fls(n / 2) == 1 + Fls(n / 2 / 2);
    assert Fls(n / 2 / 2) == 1 + Fls(n / 2 / 2 / 2);
    assert Fls(n / 2 / 2 / 2) == 1 + Fls(n / 2 / 2 / 2 / 2);
    assert Fls(n / 2 / 2 / 2 / 2) == 1 + Fls(n / 2 / 2 / 2 / 2 / 2);
    assert Fls(n / 2 / 2 / 2 / 2 / 2) == 1 + Fls(n / 2 / 2 / 2 / 2 / 2 / 2);
    assert Fls(n / 2 / 2 / 2 / 2 / 2 / 2) == 1 + Fls(n / 0x80);
  }

  lemma {:induction false} FlsSmall(n: nat, k: nat)
    requires 0 < n < Pow2(k)
    ensures Fls(n) < k
  {
    if n > 1 { FlsSmall(n / 2, k - 1); }
  }

  lemma {:induction false} UlebLength(v: nat)
    requires v > 0
    ensures |Uleb(v)| == Fls(v) / 7 + 1
  {
    if v >= 0x80 {
      UlebLength(v / 0x80);
      FlsHalves(v);
    } else {
      Pow2Table();
      FlsSmall(v, 7);
    }
  }

  lemma Pow2Table()
    ensures Pow2(7) == 0x80 && Pow2(20) == 0x10_0000 && Pow2(31) == 0x8000_0000 && Pow2(32) == 0x1_0000_0000 &&
      Pow2(52) == 0x10_0000_0000_0000
  {
    assert Pow2(7) == 0x80;
    assert Pow2(14) == 0x4000;
    assert Pow2(20) == 0x10_0000;
    assert Pow2(26) == 0x400_0000;
    assert Pow2(31) == 0x8000_0000;
    assert Pow2(32) == 0x1_0000_0000;
    assert Pow2(38) == 0x40_0000_0000;
    assert Pow2(44) == 0x1000_0000_0000;
    assert Pow2(48) == 0x1_0000_0000_0000;
    assert Pow2(52) == 0x10_0000_0000_0000;
  }

  /** The length of a non-empty prototype always ends where the space left for it does. */
  lemma LengthFits(n: u32)
    requires n > 0
    ensures 1 <= LengthBytes(n) <= 5 && |Uleb(n)| == LengthBytes(n)
  {
    Pow2Table();
    FlsSmall(n, 32);
    UlebLength(n);
  }

  // ---- Doubles that are 32 bit integers -----------------------------------------------

  type int32 = k: int | -0x8000_0000 <= k < 0x8000_0000

  /** The two words of a double. */
  datatype Num = Num(lo: u32, hi: u32)

  const NEGATIVE_ZERO := Num(0, 0x8000_0000)

  lemma {:induction false} FlsBounds(n: nat)
    requires n > 0
    ensures Pow2(Fls(n)) <= n < 2 * Pow2(Fls(n))
  {
    if n > 1 { FlsBounds(n / 2); }
  }

  /** The 52 bits of the fraction. */
  function Fraction(m: nat): (f: nat)
    requires 0 < m <= 0x8000_0000
    ensures f < 0x10_0000_0000_0000
  {
    Magnitude(m);
    var f: int := (m - Pow2(Fls(m))) * Pow2(52 - Fls(m));
    f
  }

  lemma Magnitude(m: nat)
    requires 0 < m <= 0x8000_0000
    ensures Fls(m) <= 31 && Pow2(Fls(m)) <= m
    ensures 0 <= (m - Pow2(Fls(m))) * Pow2(52 - Fls(m)) < 0x10_0000_0000_0000
  {
    hide *;
    Pow2Table();
    FlsSmall(m, 32);
    FlsBounds(m);
    var e := Fls(m);
    Pow2Add(e, 52 - e);
    MulStrictMono(m - Pow2(e), Pow2(e), Pow2(52 - e));
    MulMono(0, m - Pow2(e), Pow2(52 - e));
  }

  function Abs(k: int): nat
  {
    if k < 0 then -k else k
  }

  /** The conversion of a 32 bit integer to a double. */
  function ToDouble(k: int32): Num
  {
    if k == 0 then Num(0, 0)
    else
      var m := Abs(k);
      var f := Fraction(m);
      Magnitude(m);
      Num(f % 0x1_0000_0000, (if k < 0 then 0x8000_0000 else 0) + (1023 + Fls(m)) * 0x10_0000 + f / 0x1_0000_0000)
  }

  /** The exponent of a double, and its magnitude without the part behind the point. */
  function Exponent(n: Num): int
  {
    n.hi / 0x10_0000 % 2048 - 1023
  }

  function Whole(n: Num): int
    requires 0 <= Exponent(n) <= 31
  {
    (0x10_0000_0000_0000 + n.hi % 0x10_0000 * 0x1_0000_0000 + n.lo) / Pow2(52 - Exponent(n))
  }

  /** lj_num2int: truncation, where out of range values give the smallest integer. */
  function ToInt(n: Num): int32
  {
    if Exponent(n) < 0 then 0
    else if Exponent(n) > 31 then -0x8000_0000
    else Clamp(if n.hi >= 0x8000_0000 then -Whole(n) else Whole(n))
  }

  function Clamp(t: int): int32
  {
    if -0x8000_0000 <= t < 0x8000_0000 then t else -0x8000_0000
  }

  /** Truncation takes an integer's double back to it. */
  lemma ToIntExact(k: int32)
    ensures ToInt(ToDouble(k)) == k
  {
    if k != 0 {
      DoubleParts(k);
      var m, n := Abs(k), ToDouble(k);
      WholeIs(n, m, Fls(m), Fraction(m));
    }
  }

  lemma DoubleParts(k: int32)
    requires k != 0
    ensures var n, m := ToDouble(k), Abs(k);
      0 < m <= 0x8000_0000 && 0 <= Fls(m) <= 31 && Exponent(n) == Fls(m) &&
        n.hi % 0x10_0000 == Fraction(m) / 0x1_0000_0000 &&
      n.lo == Fraction(m) % 0x1_0000_0000 && (n.hi >= 0x8000_0000 <==> k < 0) &&
      Fraction(m) == (m - Pow2(Fls(m))) * Pow2(52 - Fls(m)) && Pow2(Fls(m)) <= m
  {
    var m := Abs(k);
    Magnitude(m);
    HighWord(k < 0, Fls(m), Fraction(m) / 0x1_0000_0000);
    hide Pow2, Fls;
  }

  lemma WholeIs(n: Num, m: nat, e: nat, f: nat)
    requires e <= 31 && Exponent(n) == e && n.hi % 0x10_0000 == f / 0x1_0000_0000 && n.lo == f % 0x1_0000_0000
    requires Pow2(e) <= m && f == (m - Pow2(e)) * Pow2(52 - e)
    ensures Whole(n) == m
  {
    Pow2Table();
    Pow2Add(e, 52 - e);
    hide Pow2, Exponent;
    Distribute(m, Pow2(e), Pow2(52 - e));
    Cancel(m, Pow2(52 - e));
    assert n.hi % 0x10_0000 * 0x1_0000_0000 + n.lo == f;
  }

  lemma HighWord(neg: bool, e: nat, f: nat)
    requires e <= 31 && f < 0x10_0000
    ensures var hi := (if neg then 0x8000_0000 else 0) + (1023 + e) * 0x10_0000 + f;
      hi / 0x10_0000 % 2048 == 1023 + e && hi % 0x10_0000 == f && (hi >= 0x8000_0000 <==> neg)
  {
  }

  lemma Distribute(m: nat, a: nat, b: nat)
    requires a <= m
    ensures a * b + (m - a) * b == m * b
  {
  }

  lemma Cancel(m: nat, b: nat)
    requires b > 0
    ensures m * b / b == m
  {
    DivUnique(m * b, b, m);
  }

  /** A number constant that equals an integer is written as one; minus zero equals zero. */
  function Narrow(n: Num): (r: Option<int32>)
    ensures r.Some? ==> n == ToDouble(r.value) || (n == NEGATIVE_ZERO && r.value == 0)
  {
    var k := ToInt(n);
    if n == ToDouble(k) || (n == NEGATIVE_ZERO && k == 0) then Some(k) else None
  }

  lemma NarrowIs(n: Num)
    ensures Narrow(n) == (if n == ToDouble(ToInt(n)) || (n == NEGATIVE_ZERO && ToInt(n) == 0) then Some(ToInt(n))
      else None)
  {
  }

  /** Every integer is narrowed, and minus zero; nothing else is. */
  lemma NarrowIff(n: Num, k: int32)
    ensures Narrow(n) == Some(k) <==> n == ToDouble(k) || (n == NEGATIVE_ZERO && k == 0)
  {
    ToIntExact(k);
    if n == NEGATIVE_ZERO && k == 0 {
      assert Exponent(n) < 0;
    } else if Narrow(n) == Some(k) && n == NEGATIVE_ZERO {
      assert Exponent(n) < 0;
    }
    if n == ToDouble(k) {
      assert ToInt(n) == k;
    }
  }

  /** What a number is when it has been written narrowed and read again. */
  function Canonical(n: Num): Num
  {
    if n == NEGATIVE_ZERO then Num(0, 0) else n
  }

  /** The 32 bits of an integer, and back. */
  function ToWord(k: int32): u32
  {
    if k < 0 then k + 0x1_0000_0000 else k
  }

  function FromWord(w: u32): int32
  {
    if w >= 0x8000_0000 then w - 0x1_0000_0000 else w
  }
}
