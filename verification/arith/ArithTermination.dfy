/** The end of a coded segment: any value of the last interval would do, and the one that ends in
    the most zeros takes the fewest bytes, because the zeros need not be written. */
module ArithTermination {
  import opened Radix
  import opened ArithModel

  predicate Zeros(y: nat, k: nat) {
    y % Pow2(k) == 0
  }

  /** No value of the interval ends in more zero bits than y. */
  ghost predicate MostZeros(y: nat, base: nat, a: nat) {
    base <= y < base + a && forall z: nat, k: nat :: base <= z < base + a && Zeros(z, k) ==> Zeros(y, k)
  }

  lemma InReach(y: nat, base: nat, a: nat)
    requires MostZeros(y, base, a)
    ensures base <= y < base + a
  {
  }

  /** No data of fewer bytes has its value in the interval. */
  ghost predicate NoneShorter(data: seq<byte>, i: Interval) {
    forall d :: Contains(d, i) ==> |data| <= |d|
  }

  lemma ZerosOf(q: nat, k: nat)
    ensures Zeros(q * Pow2(k), k)
  {
    Remainder(q, Pow2(k));
  }

  lemma Remainder(q: nat, p: nat)
    requires 0 < p
    ensures q * p % p == 0
  {
    var x := q * p;
    Squeeze(x, p, x / p, q);
  }

  lemma Quotient(y: nat, k: nat) returns (q: nat)
    requires Zeros(y, k)
    ensures y == q * Pow2(k)
  {
    q := y / Pow2(k);
    Divided(y, Pow2(k));
  }

  lemma Divided(y: nat, p: nat)
    requires 0 < p && y % p == 0
    ensures y == y / p * p
  {
  }

  lemma FewerZeros(y: nat, j: nat, k: nat)
    requires j <= k && Zeros(y, k)
    ensures Zeros(y, j)
  {
    hide Pow2, Zeros;
    var q := Quotient(y, k);
    Pow2Add(k - j, j);
    Distribute(q, Pow2(k - j), 0, Pow2(j));
    ZerosOf(q * Pow2(k - j), j);
  }

  lemma ZerosBelowBytes(v: nat, ct: nat)
    requires ct <= 11
    ensures v * Pow2(27 - ct) % 0x10000 == 0
  {
    hide Pow2, Zeros;
    ZerosOf(v, 27 - ct);
    FewerZeros(v * Pow2(27 - ct), 16, 27 - ct);
    ZerosBelow(v * Pow2(27 - ct));
  }

  lemma SameMultiple(y: nat, z: nat, base: nat, a: nat)
    requires a <= 0x10000 && base <= y < base + a && base <= z < base + a && y % 0x10000 == 0 && z % 0x10000 == 0
    ensures y == z
  {
  }

  /** The last multiple of 0x10000 in the interval; where there is none, what is 0x8000 above
      the one before it. */
  function Picked(c: nat, a: nat): nat
    requires 0 < a
  {
    var temp := (a - 1 + c) / 0x10000 * 0x10000;
    if temp < c then temp + 0x8000 else temp
  }

  lemma Inside(c: nat, a: nat)
    requires 0x8000 <= a <= 0x10000
    ensures var x := Picked(c, a); c <= x < c + a && x % 0x8000 == 0
  {
  }

  lemma MultiplePicked(c: nat, a: nat, w: nat)
    requires 0 < a <= 0x10000 && c <= w < c + a && w % 0x10000 == 0
    ensures Picked(c, a) == w
  {
  }

  lemma Shifted(b: nat, w: nat)
    requires b % 0x10000 == 0
    ensures (b + w) % 0x10000 == w % 0x10000 && (b + w) % 0x8000 == w % 0x8000
  {
    SameRest(b, w);
    LowerRest(w);
    LowerRest(b + w);
  }

  lemma SameRest(b: nat, w: nat)
    requires b % 0x10000 == 0
    ensures (b + w) % 0x10000 == w % 0x10000
  {
    var q := b / 0x10000 + w / 0x10000;
    assert b + w == 0x10000 * q + w % 0x10000;
  }

  lemma LowerRest(w: nat)
    ensures w % 0x8000 == w % 0x10000 % 0x8000
  {
    var q, r := w / 0x10000, w % 0x10000;
    assert w == 0x8000 * (2 * q) + r;
    assert r == 0x8000 * (r / 0x8000) + r % 0x8000;
  }

  /** The value that finishing picks ends in the most zeros, both in the register and, with the
      bytes before it in front, in the whole interval. */
  lemma Termination(c: nat, a: nat, x: nat, b: nat)
    requires 0x8000 <= a <= 0x10000 && b % 0x10000 == 0
    requires x == Picked(c, a)
    ensures x % 0x8000 == 0 && MostZeros(x, c, a) && MostZeros(b + x, b + c, a)
  {
    hide MostZeros, Picked;
    MostPicked(c, a, x, 0);
    MostPicked(c, a, x, b);
  }

  lemma MostPicked(c: nat, a: nat, x: nat, b: nat)
    requires 0x8000 <= a <= 0x10000 && b % 0x10000 == 0 && x == Picked(c, a)
    ensures x % 0x8000 == 0 && MostZeros(b + x, b + c, a)
  {
    hide MostZeros, Picked;
    Inside(c, a);
    Shifted(b, x);
    forall z: nat | b + c <= z < b + c + a && z % 0x10000 == 0 ensures (b + x) % 0x10000 == 0 {
      Shifted(b, z - b);
      MultiplePicked(c, a, z - b);
    }
    MostOf(b + x, b + c, a);
  }

  lemma MostOf(y: nat, base: nat, a: nat)
    requires a <= 0x10000 && base <= y < base + a && y % 0x8000 == 0
    requires forall z: nat :: base <= z < base + a && z % 0x10000 == 0 ==> y % 0x10000 == 0
    ensures MostZeros(y, base, a)
  {
    hide Pow2, Zeros;
    forall z: nat, k: nat | base <= z < base + a && Zeros(z, k) ensures Zeros(y, k) {
      ZerosBelow(y);
      if k >= 16 {
        FewerZeros(z, 16, k);
        ZerosBelow(z);
        SameMultiple(y, z, base, a);
      } else {
        FewerZeros(y, k, 15);
      }
    }
  }

  lemma ZerosBelow(y: nat)
    ensures Zeros(y, 15) == (y % 0x8000 == 0) && Zeros(y, 16) == (y % 0x10000 == 0)
  {
    Pow2Values();
  }

  // ---- The fewest bytes ----

  /** Data that does not end in a zero byte is as long as its last digit that is not zero. */
  lemma ShortDigits(data: seq<byte>, d: nat, m: nat)
    requires |data| <= d && m < |data| && data[|data| - 1] != 0
    ensures !Zeros(Prefix(data, d), 8 * (d - m))
  {
    hide Pow2, Zeros;
    if Zeros(Prefix(data, d), 8 * (d - m)) {
      var n := |data|;
      var q := Quotient(Prefix(data, d), 8 * (d - m));
      PrefixPast(data, d);
      var p := Pow2(8 * (d - n));
      Pow2Add(8 * (n - m), 8 * (d - n));
      assert 8 * (n - m) + 8 * (d - n) == 8 * (d - m);
      Distribute(q, Pow2(8 * (n - m)), 0, p);
      Cancel(Value(data), q * Pow2(8 * (n - m)), p);
      ZerosOf(q, 8 * (n - m));
      FewerZeros(Value(data), 8, 8 * (n - m));
      LastDigit(data);
      assert false;
    }
  }

  lemma Cancel(x: nat, y: nat, p: nat)
    requires 0 < p && x * p == y * p
    ensures x == y
  {
    if x < y { MulOrder(x, y, p); }
    if y < x { MulOrder(y, x, p); }
  }

  lemma LastDigit(data: seq<byte>)
    requires data != [] && Zeros(Value(data), 8)
    ensures data[|data| - 1] == 0
  {
    Pow2Values();
    PrefixStep(data, |data| - 1);
  }

  /** What m bytes can denote in the interval, they denote with this many zeros. */
  lemma CoarseValue(d: seq<byte>, i: Interval, w: nat) returns (z: nat)
    requires Contains(d, i) && 8 * |d| < 16 + i.n && |d| <= w && 8 * w >= 16 + i.n
    ensures i.base <= z < i.base + i.a && Zeros(z, 16 + i.n - 8 * |d|)
  {
    hide Pow2, Zeros, Prefix, Reaches;
    var t, k := 16 + i.n - 8 * |d|, 8 * w - 16 - i.n;
    z := Value(d) * Pow2(t);
    ZerosOf(Value(d), t);
    PrefixPast(d, w);
    Pow2Add(t, k);
    assert t + k == 8 * (w - |d|);
    Distribute(Value(d), Pow2(t), 0, Pow2(k));
    assert Prefix(d, w) == z * Pow2(k);
    ReachesAnywhere(d, i.n, i.base, w);
    ReachesAnywhere(d, i.n, i.base + i.a, w);
    if z < i.base { MulOrder(z, i.base, Pow2(k)); }
    if i.base + i.a <= z { MulOrder(i.base + i.a, z, Pow2(k)); }
  }

  /** Data that denotes the value with the most zeros, without the zero bytes at its end, is the
      shortest that denotes any value of the interval. */
  lemma Shortest(data: seq<byte>, y: nat, i: Interval, w: nat)
    requires 8 * w >= 16 + i.n && |data| <= w && (data != [] ==> data[|data| - 1] != 0)
    requires Prefix(data, w) == y * Pow2(8 * w - 16 - i.n) && MostZeros(y, i.base, i.a)
    ensures NoneShorter(data, i)
  {
    hide Pow2, Zeros, Prefix, Contains;
    forall d | Contains(d, i) ensures |data| <= |d| {
      if |d| < |data| {
        ShortDigits(data, w, |d|);
        TooManyZeros(data, y, i, w, d);
        assert false;
      }
    }
  }

  lemma TooManyZeros(data: seq<byte>, y: nat, i: Interval, w: nat, d: seq<byte>)
    requires 8 * w >= 16 + i.n && |d| <= w && Contains(d, i)
    requires Prefix(data, w) == y * Pow2(8 * w - 16 - i.n) && MostZeros(y, i.base, i.a)
    ensures Zeros(Prefix(data, w), 8 * (w - |d|))
  {
    hide Pow2, Zeros, Prefix, Contains;
    var k, m := 8 * w - 16 - i.n, |d|;
    if 8 * m >= 16 + i.n {
      ZerosOf(y, k);
      FewerZeros(y * Pow2(k), 8 * (w - m), k);
    } else {
      var t := 16 + i.n - 8 * m;
      var z := CoarseValue(d, i, w);
      var q := Quotient(y, t);
      Pow2Add(t, k);
      Distribute(q, Pow2(t), 0, Pow2(k));
      assert t + k == 8 * (w - m);
      ZerosOf(q, t + k);
    }
  }
}
