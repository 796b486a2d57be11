/** GET_SECTOR_COUNT against the capacity formulas of sections 5.3.2 and 5.3.3. */
module SdCapacity {
  import opened SdBus
  import opened Sdmm

  /** The CSD register as the 128-bit number its bit positions refer to. */
  function Register(csd: seq<Byte>): nat {
    if csd == [] then 0 else Register(csd[..|csd| - 1]) * 256 + csd[|csd| - 1]
  }

  /** Bits `hi` down to `lo` of the register, `width` == 2^(hi - lo + 1) and `unit` == 2^lo. */
  function Bits(csd: Csd, unit: nat, width: nat): nat
    requires unit > 0 && width > 0
  {
    Register(csd) / unit % width
  }

  function CsdStructure(csd: Csd): nat { Bits(csd, 0x4000_0000_0000_0000_0000_0000_0000_0000, 4) }     // [127:126]
  function ReadBlLen(csd: Csd): nat { Bits(csd, 0x1_0000_0000_0000_0000_0000, 16) }                    // [83:80]
  function CSize1(csd: Csd): nat { Bits(csd, 0x4000_0000_0000_0000, 0x1000) }                          // [73:62]
  function CSizeMult(csd: Csd): nat { Bits(csd, 0x8000_0000_0000, 8) }                                 // [49:47]
  function CSize2(csd: Csd): nat { Bits(csd, 0x1_0000_0000_0000, 0x40_0000) }                          // [69:48]

  /** Capacity in bytes. */
  function Capacity(csd: Csd): nat {
    if CsdStructure(csd) == 1 then (CSize2(csd) + 1) * 512 * 1024
    else (CSize1(csd) + 1) * Pow2(CSizeMult(csd) + 2) * Pow2(ReadBlLen(csd))
  }

  lemma RegisterStep(csd: Csd, k: nat)
    requires k < 16
    ensures Register(csd[..k + 1]) == Register(csd[..k]) * 256 + csd[k]
  {
    assert csd[..k + 1][..k] == csd[..k];
  }

  lemma RegisterTop(csd: Csd)
    ensures Register(csd[..1]) == csd[0]
  {
    RegisterStep(csd, 0);
    assert csd[..0] == [];
  }

  lemma SmallMultiple(e: int, d: int)
    requires 0 - d < e * d < d
    ensures e == 0
  {
  }

  lemma Quotient(n: nat, d: nat, q: nat, r: nat)
    requires d > 0 && n == q * d + r && r < d
    ensures n / d == q
  {
    var e := n / d - q;
    assert n == (n / d) * d + n % d;
    assert e * d == (n / d) * d - q * d;
    assert 0 - d < e * d < d;
    SmallMultiple(e, d);
  }

  /** The register cut in two behind byte `k`; the lower part is smaller than its weight. */
  function Weight(k: nat): (w: nat)
    requires k <= 16
    ensures w > 0
    decreases 16 - k
  {
    if k == 16 then 1 else 256 * Weight(k + 1)
  }

  lemma WeightStep(k: nat)
    requires k < 16
    ensures Weight(k) == 256 * Weight(k + 1)
  {
  }

  lemma {:induction false} RegisterCut(csd: Csd, k: nat) returns (low: nat)
    requires k <= 16
    ensures Register(csd) == Register(csd[..k]) * Weight(k) + low && low < Weight(k)
    decreases 16 - k
  {
    if k == 16 {
      assert csd[..16] == csd;
      low := 0;
    } else {
      var rest := RegisterCut(csd, k + 1);
      RegisterStep(csd, k);
      WeightStep(k);
      hide Register, Weight;
      low := csd[k] * Weight(k + 1) + rest;
      CutStep(Register(csd[..k]), csd[k], Weight(k + 1), rest);
    }
  }

  lemma CutStep(top: nat, b: Byte, w: nat, rest: nat)
    requires rest < w
    ensures (top * 256 + b) * w + rest == top * (256 * w) + (b * w + rest)
    ensures b * w + rest < 256 * w
  {
    assert b * w + rest < (b + 1) * w <= 256 * w;
  }

  lemma Weights()
    ensures Weight(1) == 0x100_0000_0000_0000_0000_0000_0000_0000
    ensures Weight(6) == 0x1_0000_0000_0000_0000_0000
    ensures Weight(9) == 0x100_0000_0000_0000
    ensures Weight(10) == 0x1_0000_0000_0000
    ensures Weight(11) == 0x100_0000_0000
  {
    assert Weight(15) == 0x100 && Weight(14) == 0x1_0000 && Weight(13) == 0x100_0000;
    assert Weight(12) == 0x1_0000_0000 && Weight(11) == 0x100_0000_0000;
    assert Weight(8) == 0x1_0000_0000_0000_0000 && Weight(7) == 0x100_0000_0000_0000_0000;
    assert Weight(5) == 0x100_0000_0000_0000_0000_0000 && Weight(4) == 0x1_0000_0000_0000_0000_0000_0000;
    assert Weight(3) == 0x100_0000_0000_0000_0000_0000_0000 && Weight(2) == 0x1_0000_0000_0000_0000_0000_0000_0000;
  }

  /** The first `k` bytes are what is left after dividing the others away. */
  lemma TopBytes(csd: Csd, k: nat)
    requires k <= 16
    ensures Register(csd) / Weight(k) == Register(csd[..k])
  {
    hide Weight, Register;
    var low := RegisterCut(csd, k);
    Quotient(Register(csd), Weight(k), Register(csd[..k]), low);
  }

  lemma Remainders(a: nat, b: nat, q: nat, r: nat, r': nat)
    requires r < a && r' < b
    ensures (q * b + r') * a + r == q * (a * b) + (r' * a + r)
    ensures r' * a + r < a * b
  {
    Distribute(q, a, b, r');
    LessTimes(a, b, r');
  }

  lemma Distribute(q: int, a: int, b: int, r: int)
    ensures (q * b + r) * a == q * (a * b) + r * a
  {
    assert (q * b + r) * a == q * b * a + r * a;
    assert q * b * a == q * (b * a);
  }

  lemma LessTimes(a: nat, b: nat, r: nat)
    requires r < b
    ensures r * a + a <= a * b
  {
    assert (r + 1) * a <= b * a;
  }

  lemma DivideTwice(n: nat, a: nat, b: nat)
    requires a > 0 && b > 0
    ensures a * b > 0 && n / (a * b) == n / a / b
  {
    var q, r := n / a, n % a;
    assert n == q * a + r;
    assert q == q / b * b + q % b;
    Remainders(a, b, q / b, r, q % b);
    Quotient(n, a * b, q / b, q % b * a + r);
  }

  lemma TopBits(csd: Csd, k: nat, shift: nat)
    requires k <= 16 && shift > 0
    ensures Weight(k) * shift > 0
    ensures Register(csd) / (Weight(k) * shift) == Register(csd[..k]) / shift
  {
    hide Weight, Register;
    TopBytes(csd, k);
    DivideTwice(Register(csd), Weight(k), shift);
  }

  lemma StructureField(csd: Csd)
    ensures CsdStructure(csd) == csd[0] / 64
  {
    hide Weight, Register;
    Weights();
    TopBits(csd, 1, 64);
    RegisterTop(csd);
  }

  lemma LengthField(csd: Csd)
    ensures ReadBlLen(csd) == csd[5] % 16
  {
    hide Weight, Register;
    Weights();
    TopBytes(csd, 6);
    RegisterStep(csd, 5);
  }

  lemma SizeField2(csd: Csd)
    ensures CSize2(csd) == csd[9] as int + csd[8] as int * 0x100 + (csd[7] % 64) as int * 0x1_0000
  {
    hide Weight, Register;
    Weights();
    TopBytes(csd, 10);
    RegisterStep(csd, 9); RegisterStep(csd, 8); RegisterStep(csd, 7);
  }

  /** The 12 bits six bits above the end of the third of three bytes behind `n`. */
  lemma TwelveBits(n: nat, x: nat, x': nat, y: Byte, z: nat, z': nat)
    requires x' < 4 && z < 4 && z' < 64
    ensures ((((n * 256 + x * 4 + x') * 256 + y) * 256 + z * 64 + z') / 64) % 0x1000 == z + y as int * 4 + x' * 0x400
  {
    var t := (n * 256 + x * 4 + x') * 0x400 + y as int * 4 + z;
    Quotient(((n * 256 + x * 4 + x') * 256 + y) * 256 + z * 64 + z', 64, t, z');
    assert t == (n * 64 + x) * 0x1000 + (x' * 0x400 + y as int * 4 + z);
  }

  /** The three bits seven bits above the end of the second of two bytes behind `n`. */
  lemma ThreeBits(n: nat, x: nat, x': nat, y: nat, y': nat)
    requires x' < 4 && y < 2 && y' < 128
    ensures (((n * 256 + x * 4 + x') * 256 + y * 128 + y') / 128) % 8 == y + x' * 2
  {
    var t := (n * 256 + x * 4 + x') * 2 + y;
    Quotient((n * 256 + x * 4 + x') * 256 + y * 128 + y', 128, t, y');
    assert t == (n * 64 + x) * 8 + (x' * 2 + y);
  }

  lemma SizeField1(csd: Csd)
    ensures CSize1(csd) == csd[8] as int / 64 + csd[7] as int * 4 + (csd[6] % 4) as int * 0x400
  {
    hide Weight, Register;
    Weights();
    TopBits(csd, 9, 64);
    RegisterStep(csd, 8); RegisterStep(csd, 7); RegisterStep(csd, 6);
    TwelveBits(Register(csd[..6]), csd[6] as int / 4, csd[6] as int % 4, csd[7], csd[8] as int / 64, csd[8] as int % 64);
  }

  lemma MultiplierField(csd: Csd)
    ensures CSizeMult(csd) == csd[10] as int / 128 + csd[9] as int % 4 * 2
  {
    hide Weight, Register;
    Weights();
    TopBits(csd, 11, 128);
    RegisterStep(csd, 10); RegisterStep(csd, 9);
    ThreeBits(Register(csd[..9]), csd[9] as int / 4, csd[9] as int % 4, csd[10] as int / 128, csd[10] as int % 128);
  }

  lemma {:induction false} Pow2Add(a: nat, b: nat)
    ensures Pow2(a + b) == Pow2(a) * Pow2(b)
  {
    if a > 0 {
      Pow2Add(a - 1, b);
    }
  }

  /** Version 2: right for every card but the one whose C_SIZE is all ones, where it wraps to 0. */
  lemma SectorCount2(csd: Csd)
    requires CsdStructure(csd) == 1
    ensures SectorCount(csd) * 512 == Capacity(csd) <==> CSize2(csd) != 0x3F_FFFF
    ensures CSize2(csd) == 0x3F_FFFF ==> SectorCount(csd) == 0
  {
    StructureField(csd);
    SizeField2(csd);
    hide Bits;
  }

  lemma Pow2Bound(n: nat)
    requires n <= 11
    ensures Pow2(n) <= 2048
  {
    hide Pow2;
    Pow2Add(11 - n, n);
    Pow2Eleven();
    assert Pow2(11 - n) >= 1;
    assert Pow2(11 - n) * Pow2(n) >= Pow2(n);
  }

  lemma Pow2Eleven()
    ensures Pow2(11) == 2048 && Pow2(9) == 512
  {
  }

  lemma CapacityScaled(c: nat, x: nat, y: nat, p: nat)
    requires x * y == p * 512
    ensures c * p * 512 == c * x * y
  {
    assert c * x * y == c * (x * y);
  }

  lemma Times(c: nat, p: nat)
    requires c <= 0x1000 && p <= 2048
    ensures c * p <= 0x80_0000
  {
    Grows(c, 0x1000, p);
  }

  lemma {:induction false} Grows(c: nat, d: nat, p: nat)
    requires c <= d
    ensures c * p <= d * p
    decreases d - c
  {
    if c < d {
      Grows(c + 1, d, p);
      assert (c + 1) * p == c * p + p;
    }
  }

  /** The driver's version 1 arithmetic in terms of the register's fields. */
  lemma SectorCountFields(csd: Csd)
    requires CsdStructure(csd) != 1 && ReadBlLen(csd) >= 9
    ensures SectorCount(csd) == (CSize1(csd) + 1) * Pow2(CSizeMult(csd) + ReadBlLen(csd) + 2 - 9) % 0x1_0000_0000
    ensures CSize1(csd) < 0x1000 && CSizeMult(csd) < 8
  {
    StructureField(csd);
    LengthField(csd);
    SizeField1(csd);
    MultiplierField(csd);
    hide Pow2, CsdStructure, ReadBlLen, CSize1, CSizeMult;
  }

  /** It stays below 2^23, so no byte address overflows. */
  lemma SectorCount1Shift(csd: Csd)
    requires CsdStructure(csd) != 1 && 9 <= ReadBlLen(csd) <= 11
    ensures
      var shift := CSizeMult(csd) + ReadBlLen(csd) + 2 - 9;
      && 0 <= shift <= 11
      && SectorCount(csd) == (CSize1(csd) + 1) * Pow2(shift) <= 0x80_0000
  {
    SectorCountFields(csd);
    hide Pow2, CsdStructure, ReadBlLen, CSize1, CSizeMult, SectorCount;
    var c, shift := CSize1(csd) + 1, CSizeMult(csd) + ReadBlLen(csd) + 2 - 9;
    Pow2Bound(shift);
    Times(c, Pow2(shift));
  }

  /** Version 1: right for every READ_BL_LEN the specification allows; no byte address overflows. */
  lemma SectorCount1(csd: Csd)
    requires CsdStructure(csd) != 1 && 9 <= ReadBlLen(csd) <= 11
    ensures SectorCount(csd) * 512 == Capacity(csd)
    ensures forall sector: Word :: sector < SectorCount(csd) ==> WireAddress(0, sector) == sector * 512
  {
    SectorCount1Shift(csd);
    hide CSizeMult, ReadBlLen, CSize1, CsdStructure, SectorCount, Pow2;
    var m, l := CSizeMult(csd), ReadBlLen(csd);
    Pow2Add(m + l + 2 - 9, 9);
    Pow2Add(m + 2, l);
    Pow2Eleven();
    CapacityScaled(CSize1(csd) + 1, Pow2(m + 2), Pow2(l), Pow2(m + l + 2 - 9));
  }
}
