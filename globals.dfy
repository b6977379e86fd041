/*
 * Process-wide constants of the keypoint engine: scale-space bounds,
 * fixed-point resolution, texture limits, keypoint record sizes and the
 * flag bits of a keypoint header.
 */
module Globals {

  // ---------------------------------------------------------------
  // Integer helpers for the constant expressions
  // ---------------------------------------------------------------

  /** 2 raised to the n-th power. */
  function Pow2(n: nat): (r: nat)
    ensures r >= 1
  {
    if n == 0 then 1 else 2 * Pow2(n - 1)
  }

  /**
   * JavaScript's `x << n` on a 32-bit operand: the bits are shifted within
   * 32 bits and the result is read back as a signed 32-bit integer.
   */
  function ShiftLeft(x: bv32, n: nat): (r: int)
    requires n < 32
    ensures -0x8000_0000 <= r < 0x8000_0000
  {
    var u := (x << n) as int;
    if u < 0x8000_0000 then u else u - 0x1_0000_0000
  }

  // ---------------------------------------------------------------
  // Image pyramids and scale-space
  // ---------------------------------------------------------------

  /** Maximum number of pyramid layers, not counting intra-layers. */
  const PYRAMID_MAX_LEVELS: nat := 7

  /** Maximum number of pyramid layers, counting intra-layers. */
  const PYRAMID_MAX_OCTAVES: int := 2 * PYRAMID_MAX_LEVELS - 1

  /** Maximum supported scale of a pyramid layer. */
  const PYRAMID_MAX_SCALE: nat := 2

  // ---------------------------------------------------------------
  // Fixed-point math
  // ---------------------------------------------------------------

  /** Number of bits that store the fractional part of a coordinate. */
  const FIX_BITS: nat := 3

  /** Encoded steps per integer unit (the source stores it as a float). */
  const FIX_RESOLUTION: int := ShiftLeft(1, FIX_BITS)

  // ---------------------------------------------------------------
  // Texture limits
  // ---------------------------------------------------------------

  /** Largest texture side: 2^(16 - FIX_BITS) minus two reserved codes. */
  const MAX_TEXTURE_LENGTH: int := ShiftLeft(1, 16 - FIX_BITS) - 2

  // ---------------------------------------------------------------
  // Keypoints
  // ---------------------------------------------------------------

  /** Largest descriptor, in bytes. */
  const MAX_DESCRIPTOR_SIZE: nat := 64

  /** Size of a keypoint header, in bytes. */
  const MIN_KEYPOINT_SIZE: nat := 8

  /** Flag: no special flags. Flags are bits of the one-byte flags field. */
  const KPF_NONE: bv8 := 0x0

  /** Flag: the keypoint is oriented. */
  const KPF_ORIENTED: bv8 := 0x1

  /** Flag: the keypoint is to be discarded in the next frame. */
  const KPF_DISCARD: bv8 := 0x80

  // ---------------------------------------------------------------
  // Exact values of the derived constants
  // ---------------------------------------------------------------

  lemma PyramidMaxOctavesValue()
    ensures PYRAMID_MAX_OCTAVES == 2 * PYRAMID_MAX_LEVELS - 1 == 13
  {
  }

  lemma FixResolutionValue()
    ensures FIX_RESOLUTION == Pow2(FIX_BITS) == 8
  {
    assert Pow2(3) == 8 by {
      assert Pow2(1) == 2;
      assert Pow2(2) == 4;
    }
  }

  lemma Pow2Thirteen()
    ensures Pow2(13) == 8192
  {
    assert Pow2(4) == 16 by {
      assert Pow2(1) == 2;
      assert Pow2(2) == 4;
      assert Pow2(3) == 8;
    }
    assert Pow2(8) == 256 by {
      assert Pow2(5) == 32;
      assert Pow2(6) == 64;
      assert Pow2(7) == 128;
    }
    assert Pow2(12) == 4096 by {
      assert Pow2(9) == 512;
      assert Pow2(10) == 1024;
      assert Pow2(11) == 2048;
    }
  }

  lemma MaxTextureLengthValue()
    ensures MAX_TEXTURE_LENGTH == Pow2(16 - FIX_BITS) - 2 == 8190
  {
    Pow2Thirteen();
  }

  // ---------------------------------------------------------------
  // 16-bit fixed-point coordinates
  // ---------------------------------------------------------------

  /** A coordinate with integer part i and fractional steps f, as one word. */
  function EncodeFixed(i: int, f: int): (r: int)
  {
    i * FIX_RESOLUTION + f
  }

  /** Splits an encoded word into its integer part and fractional steps. */
  function DecodeFixed(v: int): (r: (int, int))
  {
    FixResolutionValue();
    (v / FIX_RESOLUTION, v % FIX_RESOLUTION)
  }

  /** A coordinate of the admissible range. */
  predicate IsFixedCoordinate(i: int, f: int)
  {
    0 <= i < MAX_TEXTURE_LENGTH && 0 <= f < FIX_RESOLUTION
  }

  /**
   * Every admissible coordinate fits in an unsigned 16-bit word, and its
   * integer part stays below the two top integer codes of that word
   * (2^(16 - FIX_BITS) - 2 and 2^(16 - FIX_BITS) - 1), which the encoding
   * keeps for itself.
   */
  lemma FixedPointFits(i: int, f: int)
    requires IsFixedCoordinate(i, f)
    ensures 0 <= EncodeFixed(i, f) < Pow2(16)
    ensures EncodeFixed(i, f) < Pow2(16) - 2 * FIX_RESOLUTION
    ensures EncodeFixed(i, f) / FIX_RESOLUTION < MAX_TEXTURE_LENGTH
    ensures MAX_TEXTURE_LENGTH + 2 == Pow2(16 - FIX_BITS)
  {
    FixResolutionValue();
    MaxTextureLengthValue();
    assert Pow2(16) == 65536 by {
      Pow2Thirteen();
      assert Pow2(14) == 16384;
      assert Pow2(15) == 32768;
    }
  }

  /** Decoding an admissible coordinate gives back its two parts. */
  lemma DecodeEncodeFixed(i: int, f: int)
    requires IsFixedCoordinate(i, f)
    ensures DecodeFixed(EncodeFixed(i, f)) == (i, f)
  {
    FixResolutionValue();
  }

  // ---------------------------------------------------------------
  // Flag bits
  // ---------------------------------------------------------------

  /** Whether some bit of `flag` is set in the flags byte `flags`. */
  predicate HasFlag(flags: bv8, flag: bv8)
  {
    flags & flag != 0
  }

  /** The two real flags are single, distinct bits of the flags byte. */
  lemma FlagsAreBits()
    ensures KPF_NONE as int == 0
    ensures KPF_ORIENTED as int == Pow2(0) && KPF_DISCARD as int == Pow2(7)
    ensures KPF_ORIENTED & KPF_DISCARD == 0
    ensures KPF_ORIENTED | KPF_DISCARD == 0x81
  {
    assert Pow2(7) == 128 by {
      assert Pow2(4) == 16;
    }
  }

  /** KPF_NONE is the identity of OR and is set in no flags byte. */
  lemma FlagNoneIsIdentity(f: bv8)
    ensures KPF_NONE | f == f && f | KPF_NONE == f
    ensures !HasFlag(f, KPF_NONE)
  {
  }

  /**
   * Setting one of the two flags never disturbs the other: after OR-ing in
   * KPF_ORIENTED, the flags byte has it, and has KPF_DISCARD exactly when
   * it had it before; and symmetrically.
   */
  lemma FlagsIndependent(f: bv8)
    ensures HasFlag(f | KPF_ORIENTED, KPF_ORIENTED)
    ensures HasFlag(f | KPF_ORIENTED, KPF_DISCARD) == HasFlag(f, KPF_DISCARD)
    ensures HasFlag(f | KPF_DISCARD, KPF_DISCARD)
    ensures HasFlag(f | KPF_DISCARD, KPF_ORIENTED) == HasFlag(f, KPF_ORIENTED)
  {
  }
}
