/**
 * The vectorised PCM companding encoders of qos-03: 16-bit linear samples are
 * turned into 8-bit mu-law and A-law code words (ITU-T G.711 style).
 *
 * Each encoder clips a sample to the 16-bit range, splits off the sign,
 * computes a 3-bit segment from the integer base-2 logarithm of the magnitude
 * and a 4-bit mantissa from the bits below it, packs the three fields into one
 * byte, and then complements the byte (mu-law) or XORs it with 0x55 (A-law).
 * The model follows the code as written: the segment is `floor(log2 m) - 6`
 * clamped to 0..7. For magnitudes in [128, 16384) that is one higher than the
 * exponent G.711's tables give; below 128 both give 0, and from 16384 on the
 * code clamps to 7 where G.711's top octave is 7 too.
 */
module PcmCompanding {

  /** Bounds of `np.clip` for a 16-bit sample. */
  const MinSample: int := -32768
  const MaxSample: int := 32767
  /** Bias the mu-law encoder adds to the magnitude. */
  const UlawBias: int := 0x84
  /** Mask the A-law encoder XORs the packed byte with. */
  const AlawMask: bv8 := 0x55

  /** The three fields of a code word before the final complement or XOR. */
  datatype Fields = Fields(sign: int, segment: int, mantissa: int)

  predicate ValidFields(f: Fields)
  {
    0 <= f.sign < 2 && 0 <= f.segment < 8 && 0 <= f.mantissa < 16
  }

  // ---------------------------------------------------------------------------
  // Integer helpers

  function Pow2(k: nat): (r: nat)
    ensures r >= 1
  {
    if k == 0 then 1 else 2 * Pow2(k - 1)
  }

  lemma {:induction false} Pow2Monotone(i: nat, j: nat)
    requires i <= j
    ensures Pow2(i) <= Pow2(j)
  {
    if i < j {
      Pow2Monotone(i, j - 1);
    }
  }

  /**
   * Integer floor of the base-2 logarithm. On the magnitudes the encoders
   * produce (1 <= m <= 32900) it is the cast to int of `np.log2(m)`; for very
   * large m the rounded float logarithm can exceed the floor.
   */
  function Log2Floor(m: int): (r: nat)
    requires m >= 1
    ensures Pow2(r) <= m < Pow2(r + 1)
  {
    if m < 2 then 0 else 1 + Log2Floor(m / 2)
  }

  /** `np.clip(x, -32768, 32767)`. */
  function Clip(x: int): (r: int)
    ensures MinSample <= r <= MaxSample
    ensures MinSample <= x <= MaxSample ==> r == x
    ensures x < r ==> r == MinSample
    ensures r < x ==> r == MaxSample
  {
    if x < MinSample then MinSample else if x > MaxSample then MaxSample else x
  }

  function Abs(x: int): nat
  {
    if x < 0 then -x else x
  }

  /** `(x < 0).astype(np.uint8)`. */
  function SignBit(x: int): int
  {
    if x < 0 then 1 else 0
  }

  /**
   * `max(0, min(7, int(log2(m) - 6)))`; for m == 0 (an A-law zero sample),
   * where numpy's log2 is minus infinity, the clamp yields segment 0.
   */
  function Segment(m: nat): (seg: int)
    ensures 0 <= seg < 8
  {
    if m == 0 then 0
    else
      var e := Log2Floor(m) - 6;
      if e < 0 then 0 else if e > 7 then 7 else e
  }

  /** `(m >> (seg + 3)) & 0x0F`. */
  function Mantissa(m: nat, seg: nat): (mant: int)
    ensures 0 <= mant < 16
  {
    (m / Pow2(seg + 3)) % 16
  }

  // ---------------------------------------------------------------------------
  // Packing fields into a byte

  /** `(sign << 7) | (seg << 4) | mantissa`, on 8 bits. */
  function Pack(f: Fields): bv8
    requires ValidFields(f)
  {
    ((f.sign as bv8) << 7) | ((f.segment as bv8) << 4) | (f.mantissa as bv8)
  }

  /** Reads the three fields back from a packed byte. */
  function Unpack(b: bv8): (f: Fields)
    ensures ValidFields(f)
  {
    Fields((b >> 7) as int, ((b >> 4) & 7) as int, (b & 0x0F) as int)
  }

  lemma UnpackPack(f: Fields)
    requires ValidFields(f)
    ensures Unpack(Pack(f)) == f
    ensures Pack(f) as int == 128 * f.sign + 16 * f.segment + f.mantissa
  {
  }

  // ---------------------------------------------------------------------------
  // What the segment and the mantissa say about the magnitude

  /**
   * The segment pins the magnitude to one octave: above 2^(seg+6) unless it is
   * segment 0, below 2^(seg+7) unless it is segment 7.
   */
  lemma SegmentBounds(m: nat)
    ensures Segment(m) > 0 ==> Pow2(Segment(m) + 6) <= m
    ensures Segment(m) < 7 ==> m < Pow2(Segment(m) + 7)
  {
    if m > 0 {
      var l := Log2Floor(m);
      var seg := Segment(m);
      if seg > 0 {
        Pow2Monotone(seg + 6, l);
      }
      if seg < 7 {
        Pow2Monotone(l + 1, seg + 7);
      }
    }
  }

  /** Segment 0 holds exactly the magnitudes below 128, segment 7 those from 8192 on. */
  lemma SegmentEnds(m: nat)
    ensures Segment(m) == 0 <==> m < 128
    ensures Segment(m) == 7 <==> m >= 8192
  {
    SegmentBounds(m);
    var seg := Segment(m);
    assert Pow2(7) == 128 && Pow2(13) == 8192;
    if 0 < seg {
      Pow2Monotone(7, seg + 6);
    }
    if seg < 7 {
      Pow2Monotone(seg + 7, 13);
    }
  }

  /**
   * Below 16384 the mask `& 0x0F` discards nothing: the mantissa is the
   * magnitude shifted right by seg + 3, and in segments 1..6 its top bit is the
   * leading one of the magnitude.
   */
  lemma MantissaIsShiftedMagnitude(m: nat)
    requires m < 16384
    ensures Mantissa(m, Segment(m)) == m / Pow2(Segment(m) + 3)
    ensures 0 < Segment(m) ==> Mantissa(m, Segment(m)) >= 8
  {
    var seg := Segment(m);
    var d := Pow2(seg + 3);
    assert m < 16 * d && (0 < seg ==> 8 * d <= m) by {
      SegmentBounds(m);
      SegmentEnds(m);
      assert Pow2(seg + 4) == 2 * d;
      assert Pow2(seg + 5) == 4 * d;
      assert Pow2(seg + 6) == 8 * d;
      assert Pow2(seg + 7) == 16 * d;
      assert Pow2(14) == 16384 && Pow2(10) == 1024;
    }
    ShiftedWithinMask(m, d);
  }

  /** A quotient below 16 survives the mask; one from 8 * d on is at least 8. */
  lemma ShiftedWithinMask(m: nat, d: nat)
    requires d > 0 && m < 16 * d
    ensures (m / d) % 16 == m / d
    ensures 8 * d <= m ==> m / d >= 8
  {
    DivBelow(m, d, 16);
    ModBelow(m / d, 16);
    if 8 * d <= m {
      DivAtLeast(m, d, 8);
    }
  }

  lemma ModBelow(q: nat, k: nat)
    requires q < k
    ensures q % k == q
  {
  }

  lemma MulMonotone(d: nat, a: int, b: int)
    requires a <= b
    ensures d * a <= d * b
  {
  }

  lemma DivBelow(m: nat, d: nat, k: nat)
    requires d > 0 && m < k * d
    ensures m / d < k
  {
    var q := m / d;
    assert d * q <= m;
    if k <= q {
      MulMonotone(d, k, q);
    }
  }

  lemma DivAtLeast(m: nat, d: nat, k: nat)
    requires d > 0 && k * d <= m
    ensures m / d >= k
  {
    var q := m / d;
    assert m < d * (q + 1);
    if q + 1 <= k {
      MulMonotone(d, q + 1, k);
    }
  }

  // ---------------------------------------------------------------------------
  // The two per-sample encoders

  /** Sign, segment and mantissa that `linear_to_ulaw` computes for one sample. */
  function UlawFields(x: int): (f: Fields)
    ensures ValidFields(f)
  {
    var c := Clip(x);
    var m := Abs(c) + UlawBias;
    var seg := Segment(m);
    Fields(SignBit(c), seg, Mantissa(m, seg))
  }

  /** Sign, segment and mantissa that `linear_to_alaw` computes for one sample. */
  function AlawFields(x: int): (f: Fields)
    ensures ValidFields(f)
  {
    var c := Clip(x);
    var m := Abs(c);
    var seg := Segment(m);
    Fields(SignBit(c), seg, Mantissa(m, seg))
  }

  /**
   * One mu-law code word: `~packed & 0xFF`, the 8-bit complement, whose value
   * is 255 minus the packed fields.
   */
  function UlawByte(x: int): (code: bv8)
    ensures var f := UlawFields(x);
      code as int == 255 - (128 * f.sign + 16 * f.segment + f.mantissa)
  {
    UnpackPack(UlawFields(x));
    !Pack(UlawFields(x))
  }

  /**
   * One A-law code word: `packed ^ 0x55`; XOR-ing it with 0x55 again gives a
   * byte whose value is the packed fields.
   */
  function AlawByte(x: int): (code: bv8)
    ensures var f := AlawFields(x);
      (code ^ AlawMask) as int == 128 * f.sign + 16 * f.segment + f.mantissa
  {
    UnpackPack(AlawFields(x));
    Pack(AlawFields(x)) ^ AlawMask
  }

  /** Complementing a mu-law byte again gives back the three fields exactly. */
  lemma UlawFieldsRecovered(x: int)
    ensures Unpack(!UlawByte(x)) == UlawFields(x)
  {
    UnpackPack(UlawFields(x));
  }

  /** XOR-ing an A-law byte with 0x55 again gives back the three fields exactly. */
  lemma AlawFieldsRecovered(x: int)
    ensures Unpack(AlawByte(x) ^ AlawMask) == AlawFields(x)
  {
    UnpackPack(AlawFields(x));
  }

  /** A mu-law byte has its top bit set exactly for non-negative samples. */
  lemma UlawTopBitMeansNonNegative(x: int)
    ensures UlawByte(x) >= 128 <==> x >= 0
  {
  }

  /** The top bit of an A-law byte is the sign bit: 1 for negative samples. */
  lemma AlawTopBitIsSign(x: int)
    ensures (AlawByte(x) >> 7) as int == (if x < 0 then 1 else 0)
  {
    AlawFieldsRecovered(x);
  }

  /**
   * Both encoders keep the magnitude's octave in the segment; this is the
   * segment law for the biased mu-law magnitude and the raw A-law magnitude.
   */
  lemma SegmentsOfSample(x: int)
    ensures var m := Abs(Clip(x)) + UlawBias; var g := UlawFields(x).segment;
      (g > 0 ==> Pow2(g + 6) <= m) && (g < 7 ==> m < Pow2(g + 7))
    ensures var m := Abs(Clip(x)); var g := AlawFields(x).segment;
      (g > 0 ==> Pow2(g + 6) <= m) && (g < 7 ==> m < Pow2(g + 7))
  {
    SegmentBounds(Abs(Clip(x)) + UlawBias);
    SegmentBounds(Abs(Clip(x)));
  }

  /**
   * Segment 7 folds over: the mask keeps only four bits of `m >> 10`, so the
   * magnitudes m and m + 16384 get the same fields for m in [8192, 16384).
   */
  lemma SegmentSevenFoldsOver(m: nat)
    requires 8192 <= m < 16384
    ensures Segment(m + 16384) == Segment(m) == 7
    ensures Mantissa(m + 16384, 7) == Mantissa(m, 7)
  {
    SegmentEnds(m);
    SegmentEnds(m + 16384);
    assert Pow2(7 + 3) == 1024;
    var q := m / 1024;
    assert (m + 16384) / 1024 == q + 16;
    assert (q + 16) % 16 == q % 16;
  }

  /**
   * The mu-law encoder is therefore neither injective nor monotone on the
   * positive samples: 8060..16251 share their code words with 24444..32635.
   */
  lemma UlawFoldOver(x: int)
    requires 8060 <= x < 16252
    ensures UlawByte(x) == UlawByte(x + 16384)
  {
    SegmentSevenFoldsOver(x + UlawBias);
  }

  /** The same fold-over in the A-law encoder: 8192..16383 and 24576..32767. */
  lemma AlawFoldOver(x: int)
    requires 8192 <= x < 16384
    ensures AlawByte(x) == AlawByte(x + 16384)
  {
    SegmentSevenFoldsOver(x);
  }

  // ---------------------------------------------------------------------------
  // The array encoders, applied elementwise

  /** `linear_to_ulaw`: one code word per sample, each from its own sample. */
  function LinearToUlaw(pcm: seq<int>): (codes: seq<bv8>)
    ensures |codes| == |pcm|
    ensures forall i :: 0 <= i < |pcm| ==> codes[i] == UlawByte(pcm[i])
  {
    if pcm == [] then [] else [UlawByte(pcm[0])] + LinearToUlaw(pcm[1..])
  }

  /** `linear_to_alaw`: one code word per sample, each from its own sample. */
  function LinearToAlaw(pcm: seq<int>): (codes: seq<bv8>)
    ensures |codes| == |pcm|
    ensures forall i :: 0 <= i < |pcm| ==> codes[i] == AlawByte(pcm[i])
  {
    if pcm == [] then [] else [AlawByte(pcm[0])] + LinearToAlaw(pcm[1..])
  }
}
