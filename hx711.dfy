/**
 * The HX711 load-cell ADC driver of the fluid scale.
 *
 * The converter is read by bit-banging: the driver pulses the clock line 24
 * times, sampling the data line after each pulse (most significant bit
 * first), then pulses it `GAIN` more times to select the next conversion's
 * gain, and finally widens the 24-bit two's-complement code to a `long`.
 * The GPIO layer is not modelled: the data-line samples of one read are an
 * input `seq<bool>`, and the clock pulses driven are counted in a field.
 * `long` is taken to be 32 bits wide, the width the sign extension is
 * written for.
 */
module Hx711 {

  const DATA_BITS: nat := 24
  const TWO_23: nat := 0x80_0000
  const TWO_24: nat := 0x100_0000
  const TWO_32: nat := 0x1_0000_0000
  /** The mask OR-ed into a negative reading, `0xFF000000`: bits 24 to 31. */
  const HIGH_BYTE: nat := 0xFF00_0000
  /** The initial value of the `GAIN` field, never changed by `main`. */
  const DEFAULT_GAIN: int := 128

  function Pow2(n: nat): (p: nat)
    ensures p >= 1
  {
    if n == 0 then 1 else 2 * Pow2(n - 1)
  }

  lemma Pow2Constants()
    ensures Pow2(23) == TWO_23 && Pow2(24) == TWO_24
    ensures Pow2(31) == 0x8000_0000 && Pow2(32) == TWO_32
  {
    assert Pow2(8) == 256;
    assert Pow2(16) == 256 * 256;
    assert Pow2(24) == 256 * 256 * 256;
  }

  // ---------------------------------------------------------------------
  // Shifting the data bits in
  // ---------------------------------------------------------------------

  /**
   * The accumulator after `value = value << 1; if (bit) value++;` has run
   * over `bits` in order, starting from 0.
   */
  function ShiftIn(bits: seq<bool>): nat
  {
    if bits == [] then 0
    else 2 * ShiftIn(bits[..|bits| - 1]) + (if bits[|bits| - 1] then 1 else 0)
  }

  /** Reference reading of the same bits: bit `i` weighs `2^(n-1-i)`. */
  function WeightedSum(bits: seq<bool>): nat
  {
    if bits == [] then 0
    else (if bits[0] then Pow2(|bits| - 1) else 0) + WeightedSum(bits[1..])
  }

  lemma {:induction false} ShiftInAppend(a: seq<bool>, b: seq<bool>)
    ensures ShiftIn(a + b) == ShiftIn(a) * Pow2(|b|) + ShiftIn(b)
    decreases |b|
  {
    if b == [] {
      assert a + b == a;
    } else {
      var b' := b[..|b| - 1];
      var last := if b[|b| - 1] then 1 else 0;
      assert (a + b)[..|a + b| - 1] == a + b';
      assert (a + b)[|a + b| - 1] == b[|b| - 1];
      ShiftInAppend(a, b');
      var x, y, p := ShiftIn(a), ShiftIn(b'), Pow2(|b'|);
      assert ShiftIn(a + b) == 2 * ShiftIn(a + b') + last;
      assert ShiftIn(b) == 2 * y + last;
      assert Pow2(|b|) == 2 * p;
      Distribute(x, y, p, last);
    }
  }

  /**
   * The regrouping step of `ShiftInAppend`, kept apart so that its
   * products stay out of the inductive proof.
   */
  lemma Distribute(x: int, y: int, p: int, last: int)
    ensures 2 * (x * p + y) + last == x * (2 * p) + (2 * y + last)
  {
  }

  /**
   * One step of the read loop on the 32-bit `unsigned long` accumulator:
   * while fewer than 24 bits are in, the shift never wraps.
   */
  lemma ShiftStep(prefix: seq<bool>, bit: bool)
    requires |prefix| < DATA_BITS
    ensures ShiftIn(prefix + [bit]) == (ShiftIn(prefix) * 2) % TWO_32 + (if bit then 1 else 0)
  {
    var v := ShiftIn(prefix);
    ShiftInBound(prefix);
    Pow2Grows(|prefix|, 23);
    Pow2Constants();
    SmallMod(v * 2, TWO_32);
    ShiftInSnoc(prefix, bit);
  }

  /** Shifting in one more bit doubles the accumulator and adds the bit. */
  lemma ShiftInSnoc(prefix: seq<bool>, bit: bool)
    ensures ShiftIn(prefix + [bit]) == 2 * ShiftIn(prefix) + (if bit then 1 else 0)
  {
    var grown := prefix + [bit];
    assert grown[..|grown| - 1] == prefix;
  }

  /** A remainder below the modulus is the number itself; stated apart to keep `ShiftStep`'s proof small. */
  lemma SmallMod(x: nat, m: nat)
    requires x < m
    ensures x % m == x
  {
  }

  /** Shifting the bits in MSB first yields the sum of their positional weights. */
  lemma {:induction false} ShiftInIsWeightedSum(bits: seq<bool>)
    ensures ShiftIn(bits) == WeightedSum(bits)
    decreases |bits|
  {
    if bits != [] {
      var rest := bits[1..];
      assert bits == [bits[0]] + rest;
      ShiftInAppend([bits[0]], rest);
      assert [bits[0]][..0] == [];
      ShiftInIsWeightedSum(rest);
    }
  }

  /** An accumulator that has taken in `n` bits holds less than `2^n`. */
  lemma {:induction false} ShiftInBound(bits: seq<bool>)
    ensures ShiftIn(bits) < Pow2(|bits|)
    decreases |bits|
  {
    if bits != [] {
      ShiftInBound(bits[..|bits| - 1]);
    }
  }

  // ---------------------------------------------------------------------
  // Widening the 24-bit code
  // ---------------------------------------------------------------------

  /** `value & 0x800000` is non-zero: bit 23 of `value` is set. */
  predicate Bit23(value: nat)
  {
    (value / TWO_23) % 2 == 1
  }

  /** Bitwise OR `a | b` of two unsigned words, bit by bit from the lowest. */
  function BitOr(a: nat, b: nat): nat
    decreases a + b
  {
    if a == 0 && b == 0 then 0
    else 2 * BitOr(a / 2, b / 2) + (if a % 2 == 1 || b % 2 == 1 then 1 else 0)
  }

  lemma {:induction false} BitOrZero(b: nat)
    ensures BitOr(0, b) == b
    decreases b
  {
    if b != 0 {
      BitOrZero(b / 2);
    }
  }

  /**
   * OR-ing a word whose bits all lie below bit `k` into a multiple of
   * `2^k` sets disjoint bits, so it adds.
   */
  lemma {:induction false} BitOrDisjoint(a: nat, c: nat, k: nat)
    requires a < Pow2(k)
    ensures BitOr(a, c * Pow2(k)) == a + c * Pow2(k)
    decreases k
  {
    if k == 0 {
      BitOrZero(c);
    } else {
      var b := c * Pow2(k);
      assert b == 2 * (c * Pow2(k - 1));
      BitOrDisjoint(a / 2, c, k - 1);
      if a != 0 || b != 0 {
        assert BitOr(a, b) == 2 * BitOr(a / 2, b / 2) + (if a % 2 == 1 then 1 else 0);
      }
    }
  }

  /** Bits 24 to 31 of a 24-bit code are clear, so OR-ing the high byte in adds it. */
  lemma OrHighByteAdds(value: nat)
    requires value < TWO_24
    ensures BitOr(value, HIGH_BYTE) == value + HIGH_BYTE
  {
    Pow2Constants();
    BitOrDisjoint(value, 0xFF, 24);
  }

  /** `if (value & 0x800000) value |= 0xFF000000;` on the 32-bit word. */
  function FillHighByte(value: nat): (w: nat)
    requires value < TWO_24
    ensures w < TWO_32
    ensures Bit23(value) ==> w == value + HIGH_BYTE
    ensures !Bit23(value) ==> w == value
  {
    if Bit23(value) then
      OrHighByteAdds(value);
      BitOr(value, HIGH_BYTE)
    else value
  }

  /** `static_cast<long>(word)` for a `long` that is `width` bits wide. */
  function ToLong(word: nat, width: nat): (r: int)
    requires 0 < width && word < Pow2(width)
    ensures -(Pow2(width - 1) as int) <= r < Pow2(width - 1)
    ensures r == word || r == word - Pow2(width)
  {
    if word >= Pow2(width - 1) then word - Pow2(width) else word
  }

  /**
   * What the comment "24-bit two's complement to signed 32-bit" asks for:
   * a code with bit 23 set stands for `code - 2^24`, any other for itself.
   */
  function SignExtend24(code: nat): (r: int)
    requires code < TWO_24
    ensures -(TWO_23 as int) <= r < TWO_23
    ensures r % TWO_24 == code
  {
    if code >= TWO_23 then code - TWO_24 else code
  }

  lemma Bit23IsTopBit(value: nat)
    requires value < TWO_24
    ensures Bit23(value) <==> value >= TWO_23
  {
  }

  /**
   * With a 32-bit `long`, filling the high byte and casting is exactly
   * the sign extension of the 24-bit code.
   */
  lemma Long32SignExtends(value: nat)
    requires value < TWO_24
    ensures FillHighByte(value) < Pow2(32)
    ensures ToLong(FillHighByte(value), 32) == SignExtend24(value)
  {
    Bit23IsTopBit(value);
    Pow2Constants();
  }

  /**
   * With a 64-bit `long` (LP64) the same code returns the filled word
   * unchanged: the most negative reading comes back as a large positive
   * number instead of `-2^23`.
   */
  lemma Long64DoesNotSignExtend()
    ensures FillHighByte(TWO_23) < Pow2(64)
    ensures ToLong(FillHighByte(TWO_23), 64) == 0xFF80_0000
    ensures SignExtend24(TWO_23) == -0x80_0000
  {
    Bit23IsTopBit(TWO_23);
    Pow2Constants();
    Pow2Grows(32, 63);
    Pow2Grows(32, 64);
  }

  lemma {:induction false} Pow2Grows(m: nat, n: nat)
    requires m <= n
    ensures Pow2(m) <= Pow2(n)
    decreases n - m
  {
    if m < n { Pow2Grows(m, n - 1); }
  }

  /** Truncating a reading to its low 24 bits: the code the converter sent. */
  function Truncate24(r: int): (code: nat)
    ensures code < TWO_24
  {
    r % TWO_24
  }

  /** Sign extension and truncation are inverse on the 24-bit range. */
  lemma SignExtendInverse(code: nat, r: int)
    requires code < TWO_24
    requires -(TWO_23 as int) <= r < TWO_23
    ensures Truncate24(SignExtend24(code)) == code
    ensures SignExtend24(Truncate24(r)) == r
  {
  }

  /** The reading `read()` returns for the 24 data-line samples `dout`. */
  function Sample(dout: seq<bool>): (r: int)
    requires |dout| == DATA_BITS
    ensures -(TWO_23 as int) <= r < TWO_23
  {
    ShiftInBound(dout);
    Pow2Constants();
    SignExtend24(ShiftIn(dout))
  }

  /**
   * Two's complement read off the bits: the first sample weighs `-2^23`,
   * the others their positive weights; so a reading is negative exactly
   * when the first sampled bit is 1.
   */
  lemma SampleIsTwosComplement(dout: seq<bool>)
    requires |dout| == DATA_BITS
    ensures Sample(dout) == (if dout[0] then -(TWO_23 as int) else 0) + WeightedSum(dout[1..])
    ensures Sample(dout) < 0 <==> dout[0]
  {
    ShiftInIsWeightedSum(dout);
    ShiftInBound(dout[1..]);
    ShiftInIsWeightedSum(dout[1..]);
    Pow2Constants();
  }

  // ---------------------------------------------------------------------
  // Averaging
  // ---------------------------------------------------------------------

  function Abs(x: int): nat
  {
    if x < 0 then -x else x
  }

  /** Division of naturals stays natural; stated apart to keep `TruncDiv`'s proof linear. */
  lemma DivNonnegative(x: nat, y: nat)
    requires y > 0
    ensures x / y >= 0
  {
  }

  /** C++ integer division `a / b`: the quotient truncated toward zero. */
  function TruncDiv(a: int, b: int): (q: int)
    requires b != 0
    ensures Abs(q) == Abs(a) / Abs(b)
    ensures q < 0 ==> (a < 0) != (b < 0)
    ensures q > 0 ==> (a < 0) == (b < 0)
  {
    DivNonnegative(Abs(a), Abs(b));
    var m := Abs(a) / Abs(b);
    if (a < 0) == (b < 0) then m else -m
  }

  function Sum(xs: seq<int>): int
  {
    if xs == [] then 0 else Sum(xs[..|xs| - 1]) + xs[|xs| - 1]
  }

  predicate Frames(frames: seq<seq<bool>>)
  {
    forall i :: 0 <= i < |frames| ==> |frames[i]| == DATA_BITS
  }

  /** The readings successive `read()` calls return on `frames`. */
  function Samples(frames: seq<seq<bool>>): (xs: seq<int>)
    requires Frames(frames)
    ensures |xs| == |frames|
  {
    if frames == [] then []
    else Samples(frames[..|frames| - 1]) + [Sample(frames[|frames| - 1])]
  }

  /**
   * `read_average(times)`: the sum of the readings divided by `times`; a
   * non-positive `times` reads nothing and the empty sum is 0.
   */
  function Average(frames: seq<seq<bool>>, times: int): int
    requires times != 0 && Frames(frames)
  {
    TruncDiv(Sum(Samples(frames)), times)
  }

  /** The pulse count after one more read; stated apart to keep the loop's proof linear. */
  lemma MulStep(i: int, k: int)
    ensures (i + 1) * k == i * k + k
  {
  }

  /** One more read adds its reading to the running sum. */
  lemma SumOfReadsStep(frames: seq<seq<bool>>, i: nat)
    requires Frames(frames) && i < |frames|
    ensures Sum(Samples(frames[..i + 1])) == Sum(Samples(frames[..i])) + Sample(frames[i])
  {
    assert frames[..i + 1][..i] == frames[..i];
  }

  lemma {:induction false} SamplesInRange(frames: seq<seq<bool>>)
    requires Frames(frames)
    ensures forall i :: 0 <= i < |frames| ==> -(TWO_23 as int) <= Samples(frames)[i] < TWO_23
    decreases |frames|
  {
    if frames != [] {
      SamplesInRange(frames[..|frames| - 1]);
    }
  }

  lemma {:induction false} SumBounds(xs: seq<int>, lo: int, hi: int)
    requires forall i :: 0 <= i < |xs| ==> lo <= xs[i] <= hi
    ensures |xs| * lo <= Sum(xs) <= |xs| * hi
    decreases |xs|
  {
    if xs != [] {
      var n := |xs| - 1;
      SumBounds(xs[..n], lo, hi);
      assert (n + 1) * lo == n * lo + lo && (n + 1) * hi == n * hi + hi;
    }
  }

  /** Multiplying by a natural keeps the order (a step Dafny's arithmetic does not take by itself). */
  lemma MulMonotonic(x: int, y: int, n: nat)
    requires x <= y
    ensures x * n <= y * n
  {
  }

  /** `n * c <= a` gives `c <= a / n` for a positive divisor. */
  lemma DivAtLeast(a: nat, n: nat, c: int)
    requires n > 0 && n * c <= a
    ensures c <= a / n
  {
    var q, r := a / n, a % n;
    assert a == q * n + r && r < n;
    if q < c {
      MulMonotonic(q, c - 1, n);
    }
  }

  /** `a <= n * c` gives `a / n <= c` for a positive divisor. */
  lemma DivAtMost(a: nat, n: nat, c: int)
    requires n > 0 && a <= n * c
    ensures a / n <= c
  {
    var q, r := a / n, a % n;
    assert a == q * n + r && 0 <= r;
    if q > c {
      MulMonotonic(c + 1, q, n);
    }
  }

  /** A truncated mean lies between the smallest and largest value averaged. */
  lemma MeanWithin(xs: seq<int>, lo: int, hi: int)
    requires |xs| > 0
    requires forall i :: 0 <= i < |xs| ==> lo <= xs[i] <= hi
    ensures lo <= TruncDiv(Sum(xs), |xs|) <= hi
  {
    var n := |xs|;
    var s := Sum(xs);
    SumBounds(xs, lo, hi);
    assert n * -lo == -(n * lo) && n * -hi == -(n * hi);
    if s >= 0 {
      if lo > 0 { DivAtLeast(s, n, lo); }
      if hi >= 0 { DivAtMost(s, n, hi); }
    } else {
      if lo <= 0 { DivAtMost(-s, n, -lo); }
      if hi < 0 { DivAtLeast(-s, n, -hi); }
    }
  }

  /** An average of readings is itself a reading of the 24-bit range. */
  lemma AverageInRange(frames: seq<seq<bool>>, times: int)
    requires times != 0 && Frames(frames)
    requires |frames| == if times > 0 then times else 0
    ensures -(TWO_23 as int) <= Average(frames, times) < TWO_23
  {
    if times > 0 {
      SamplesInRange(frames);
      MeanWithin(Samples(frames), -(TWO_23 as int), TWO_23 - 1);
    }
  }

  /** `read_average(1)` returns the single reading unchanged. */
  lemma AverageOfOne(frame: seq<bool>)
    requires |frame| == DATA_BITS
    ensures Average([frame], 1) == Sample(frame)
  {
    assert [frame][..0] == [];
    assert Samples([frame]) == [Sample(frame)];
    assert [Sample(frame)][..0] == [];
    assert Sum([Sample(frame)]) == Sample(frame);
  }

  /** Averaging a steady load returns that load's reading exactly. */
  lemma AverageOfSteadyLoad(frames: seq<seq<bool>>, frame: seq<bool>)
    requires |frame| == DATA_BITS && |frames| > 0
    requires forall i :: 0 <= i < |frames| ==> frames[i] == frame
    ensures Average(frames, |frames|) == Sample(frame)
  {
    SamplesFromOneFrame(frames, frame);
    MeanWithin(Samples(frames), Sample(frame), Sample(frame));
  }

  lemma {:induction false} SamplesFromOneFrame(frames: seq<seq<bool>>, frame: seq<bool>)
    requires |frame| == DATA_BITS
    requires forall i :: 0 <= i < |frames| ==> frames[i] == frame
    ensures Frames(frames)
    ensures forall i :: 0 <= i < |frames| ==> Samples(frames)[i] == Sample(frame)
    decreases |frames|
  {
    if frames != [] {
      SamplesFromOneFrame(frames[..|frames| - 1], frame);
    }
  }

  // ---------------------------------------------------------------------
  // Gain selection
  // ---------------------------------------------------------------------

  /**
   * `set_gain`: the number of extra clock pulses for a requested gain.
   * Channel A at gain 128 takes 1, channel A at gain 64 takes 3, channel B
   * at gain 32 takes 2; any other request falls back to 1.
   */
  function GainPulses(gain: int): (pulses: int)
    ensures 1 <= pulses <= 3
    ensures pulses == 3 <==> gain == 64
    ensures pulses == 2 <==> gain == 32
  {
    match gain
    case 128 => 1
    case 64 => 3
    case 32 => 2
    case _ => 1
  }

  /** Calibrated weight: `(raw - OFFSET) / SCALE`, over the reals. */
  function Units(raw: int, offset: int, scale: real): (w: real)
    requires scale != 0.0
    ensures w * scale == (raw - offset) as real
  {
    (raw - offset) as real / scale
  }

  /** The driver object: its calibration fields and the clock line it drives. */
  class HX711 {
    /** `OFFSET`: the raw reading taken as zero. */
    var offset: int
    /** `SCALE`: raw counts per unit of weight. */
    var scale: real
    /** `GAIN`: the number of clock pulses issued after the 24 data bits. */
    var gain: int
    /** Clock pulses driven on the CLK line since construction. */
    var pulses: nat

    /** `GAIN` holds its initial 128 or a value `set_gain` produced. */
    ghost predicate Valid()
      reads this
    {
      gain == DEFAULT_GAIN || 1 <= gain <= 3
    }

    constructor ()
      ensures Valid()
      ensures offset == 0 && scale == 1.0 && gain == DEFAULT_GAIN && pulses == 0
    {
      offset := 0;
      scale := 1.0;
      gain := DEFAULT_GAIN;
      pulses := 0;
    }

    method SetGain(requested: int)
      modifies this`gain
      ensures Valid()
      ensures gain == GainPulses(requested)
    {
      if requested == 128 {
        gain := 1;
      } else if requested == 64 {
        gain := 3;
      } else if requested == 32 {
        gain := 2;
      } else {
        gain := 1;
      }
    }

    /** `read()`, once the data line has signalled ready; `dout` is what it samples. */
    method Read(dout: seq<bool>) returns (reading: int)
      requires Valid()
      requires |dout| == DATA_BITS
      modifies this`pulses
      ensures reading == Sample(dout)
      ensures pulses == old(pulses) + DATA_BITS + gain
    {
      var value: nat := 0;
      var i := 0;
      while i < DATA_BITS
        invariant 0 <= i <= DATA_BITS
        invariant value == ShiftIn(dout[..i])
        invariant pulses == old(pulses) + i
      {
        pulses := pulses + 1;
        ShiftStep(dout[..i], dout[i]);
        value := (value * 2) % TWO_32;
        if dout[i] {
          value := value + 1;
        }
        assert dout[..i + 1] == dout[..i] + [dout[i]];
        i := i + 1;
      }
      var j := 0;
      while j < gain
        invariant 0 <= j <= gain
        invariant pulses == old(pulses) + DATA_BITS + j
      {
        pulses := pulses + 1;
        j := j + 1;
      }
      assert dout[..DATA_BITS] == dout;
      ShiftInBound(dout);
      Pow2Constants();
      var word := FillHighByte(value);
      Long32SignExtends(value);
      reading := ToLong(word, 32);
    }

    /** `read_average(times)`; `frames[i]` is what the `i`-th read samples. */
    method ReadAverage(times: int, frames: seq<seq<bool>>) returns (average: int)
      requires Valid()
      requires times != 0
      requires Frames(frames) && |frames| == if times > 0 then times else 0
      modifies this`pulses
      ensures average == Average(frames, times)
      ensures pulses == old(pulses) + |frames| * (DATA_BITS + gain)
    {
      ghost var perRead := DATA_BITS + gain;
      var sum := 0;
      var i := 0;
      while i < times
        invariant 0 <= i <= |frames|
        invariant sum == Sum(Samples(frames[..i]))
        invariant pulses == old(pulses) + i * perRead
      {
        var reading := Read(frames[i]);
        SumOfReadsStep(frames, i);
        MulStep(i, perRead);
        sum := sum + reading;
        i := i + 1;
      }
      assert frames[..i] == frames;
      average := TruncDiv(sum, times);
    }

    /** `tare(times)`: the current load becomes the zero point. */
    method Tare(times: int, frames: seq<seq<bool>>)
      requires Valid()
      requires times != 0
      requires Frames(frames) && |frames| == if times > 0 then times else 0
      modifies this`offset, this`pulses
      ensures offset == Average(frames, times)
      ensures scale == old(scale) && gain == old(gain)
      ensures pulses == old(pulses) + |frames| * (DATA_BITS + gain)
    {
      var average := ReadAverage(times, frames);
      SetOffset(average);
    }

    method SetScale(factor: real)
      modifies this`scale
      ensures scale == factor
    {
      scale := factor;
    }

    method SetOffset(zero: int)
      modifies this`offset
      ensures offset == zero
    {
      offset := zero;
    }

    /** `get_units(times)`: the averaged reading, calibrated. */
    method GetUnits(times: int, frames: seq<seq<bool>>) returns (weight: real)
      requires Valid()
      requires times != 0 && scale != 0.0
      requires Frames(frames) && |frames| == if times > 0 then times else 0
      modifies this`pulses
      ensures weight == Units(Average(frames, times), offset, scale)
      ensures pulses == old(pulses) + |frames| * (DATA_BITS + gain)
    {
      var average := ReadAverage(times, frames);
      weight := (average - offset) as real / scale;
    }
  }
}
