/** The DC coefficient in a progressive file: an arithmetic right shift drops its low bits in the
    first scan, and refinement scans add them one at a time. */
module DcBits {
  import opened Radix
  import opened Blocks

  function DcBit(v: int, al: nat): bool { ShiftRight(v, al) % 2 == 1 }

  /** What is left of a DC value without its low al bits. */
  function DcCoarse(v: int, al: nat): int { ShiftRight(v, al) * Pow2(al) }

  /** A refinement bit sets the bit at position al. */
  function WithBit(c: int, bit: bool, al: nat): int {
    if bit && c / Pow2(al) % 2 == 0 then Jcoef(c + Pow2(al)) else c
  }

  lemma BitAdded(v: int, al: nat)
    requires -0x8000 <= v < 0x8000 && al <= 13
    ensures WithBit(DcCoarse(v, al + 1), DcBit(v, al), al) == DcCoarse(v, al)
  {
    hide DcCoarse, DcBit, Pow2;
    DcBitMore(v, al);
  }

  /** One refinement bit brings the DC value to the next precision. */
  lemma DcBitMore(v: int, al: nat)
    requires -0x8000 <= v < 0x8000 && al <= 13
    ensures var c := DcCoarse(v, al + 1);
      && c / Pow2(al) % 2 == 0 && DcCoarse(v, al) == c + (if DcBit(v, al) then Pow2(al) else 0)
      && -0x8000 <= DcCoarse(v, al) < 0x8000
  {
    hide Pow2;
    var p := Pow2(al);
    var q, h := v / p, v / (2 * p);
    Pow2Step(al);
    FloorHalf(v, p);
    assert v == q * p + v % p;
    DcRange(v, al);
    EvenQuotient(h, p);
    if DcBit(v, al) { assert q == 2 * h + 1; DistributeInt(2 * h, 1, p); } else { assert q == 2 * h; }
  }

  lemma DistributeInt(x: int, y: int, p: nat)
    ensures (x + y) * p == x * p + y * p
  {
  }

  lemma EvenQuotient(h: int, p: nat)
    requires 0 < p
    ensures h * (2 * p) == 2 * h * p && (h * (2 * p)) / p == 2 * h
  {
    FloorIs(2 * h * p, p, 2 * h);
  }

  lemma FloorHalf(v: int, p: nat)
    requires 0 < p
    ensures v / p == 2 * (v / (2 * p)) + (v / p) % 2
  {
    var q := v / p;
    var h, b := q / 2, q % 2;
    assert v == q * p + v % p && q == 2 * h + b;
    DistributeInt(2 * h, b, p);
    MulOrder(b, 1, p);
    assert h * (2 * p) == 2 * h * p;
    FloorIs(v, 2 * p, h);
  }

  lemma FloorIs(v: int, w: nat, q: int)
    requires q * w <= v < q * w + w
    ensures v / w == q
  {
    var r := v / w;
    assert v == r * w + v % w;
    if r < q { DistributeInt(q - r, r, w); MulOrder(1, q - r, w); }
    if q < r { DistributeInt(r - q, q, w); MulOrder(1, r - q, w); }
  }

  lemma DcRange(v: int, al: nat)
    requires -0x8000 <= v < 0x8000 && al <= 13
    ensures -0x8000 <= DcCoarse(v, al) < 0x8000
  {
    hide Pow2;
    var p, k := Pow2(al), Pow2(15 - al);
    Pow2Add(al, 15 - al);
    Pow2Values();
    var q := v / p;
    assert v == q * p + v % p && p * k == 0x8000;
    if q < -k { DistributeInt(-1 - k - q, q, p); MulOrder(1, 0 - k - q, p); Negated(k, p); }
  }

  lemma Negated(k: nat, p: nat)
    ensures (0 - k) * p == 0 - k * p && (-1 - k) * p == 0 - k * p - p
  {
  }

  lemma DcAll(v: int)
    ensures DcCoarse(v, 0) == v
  {
  }
}
