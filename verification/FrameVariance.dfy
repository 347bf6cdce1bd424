/**
 The centred energy of one audio frame: 320 times the sum of squares minus the square of the sum. The
 loop that gathers the moments, the guarded arithmetic and the accumulation over a window.
 */
module FrameVariance {
  import opened Pcm

  const FRAMES: nat := 25
  const U64: nat := 0x1_0000_0000_0000_0000
  const I64_MAX: int := 0x7FFF_FFFF_FFFF_FFFF

  function Sum(x: seq<Sample>): int { if x == [] then 0 else Sum(x[..|x| - 1]) + x[|x| - 1] }

  function SumSq(x: seq<Sample>): nat { if x == [] then 0 else SumSq(x[..|x| - 1]) + Square(x[|x| - 1]) }

  function Square(a: int): nat
  {
    NonNegative(a);
    a * a
  }

  lemma NonNegative(a: int)
    ensures a * a >= 0
  {
  }

  /** The sum of squared differences of `a` to every sample. */
  function Spread(x: seq<Sample>, a: int): nat {
    if x == [] then 0 else Spread(x[..|x| - 1], a) + Square(x[|x| - 1] - a)
  }

  /** The sum of squared differences over all unordered pairs of samples. */
  function Pairs(x: seq<Sample>): nat {
    if x == [] then 0 else Pairs(x[..|x| - 1]) + Spread(x[..|x| - 1], x[|x| - 1])
  }

  lemma SpreadStep(q: int, s: int, n: int, a: int, b: int)
    ensures (q - 2 * (a * s) + n * (a * a)) + (b - a) * (b - a) == (q + b * b) - 2 * (a * (s + b)) + (n + 1) * (a * a)
  {
  }

  lemma {:induction false} SpreadIs(x: seq<Sample>, a: int)
    ensures Spread(x, a) == SumSq(x) - 2 * (a * Sum(x)) + |x| * (a * a)
  {
    if x == [] {
    } else {
      var y, b := x[..|x| - 1], x[|x| - 1];
      SpreadIs(y, a);
      SpreadStep(SumSq(y), Sum(y), |y|, a, b);
    }
  }

  lemma NumeratorStep(q: int, s: int, n: int, b: int)
    ensures (n * q - s * s) + (q - 2 * (b * s) + n * (b * b)) == (n + 1) * (q + b * b) - (s + b) * (s + b)
  {
    assert (s + b) * (s + b) == s * s + 2 * (b * s) + b * b;
    assert (n + 1) * (q + b * b) == n * q + n * (b * b) + q + b * b;
  }

  /** Lagrange's identity: the numerator is the sum of squared differences of all pairs. */
  lemma {:induction false} NumeratorIsPairs(x: seq<Sample>)
    ensures |x| * SumSq(x) - Sum(x) * Sum(x) == Pairs(x)
  {
    if x == [] {
    } else {
      var y, b := x[..|x| - 1], x[|x| - 1];
      NumeratorIsPairs(y);
      SpreadIs(y, b);
      NumeratorStep(SumSq(y), Sum(y), |y|, b);
    }
  }

  /** Cauchy's inequality, so the guarded subtraction cannot go below zero. */
  lemma NumeratorIsNatural(x: seq<Sample>)
    ensures |x| * SumSq(x) >= Sum(x) * Sum(x)
  {
    NumeratorIsPairs(x);
  }

  lemma SquareMonotone(a: nat, b: nat)
    requires a <= b
    ensures a * a <= b * b
  {
    assert a * a <= a * b;
    assert a * b <= b * b;
  }

  lemma SquareBound(a: int, m: int)
    requires -m <= a <= m
    ensures 0 <= m && Square(a) <= m * m
  {
    if a >= 0 {
      SquareMonotone(a, m);
    } else {
      SquareMonotone(-a, m);
      assert (-a) * (-a) == a * a;
    }
  }

  lemma {:induction false} MomentBounds(x: seq<Sample>)
    ensures -32768 * |x| <= Sum(x) <= 32767 * |x| && SumSq(x) <= 0x4000_0000 * |x|
  {
    if x != [] {
      MomentBounds(x[..|x| - 1]);
      SquareBound(x[|x| - 1], 32768);
    }
  }

  /** mic_frame_ac_numerator. Every product and difference fits its C type. */
  method AcNumerator(signedSum: int, sumSquare: nat) returns (ok: bool, output: nat)
    ensures ok <==>
      && -10485760 <= signedSum <= 10485440 && sumSquare <= 343597383680
      && FRAME_SAMPLES * sumSquare >= Square(signedSum)
    ensures ok ==> output == FRAME_SAMPLES * sumSquare - Square(signedSum) <= 109951162777600
  {
    output := 0;
    if signedSum < -10485760 || signedSum > 10485440 || sumSquare > 343597383680 { return false, 0; }
    SquareBound(signedSum, 10485760);
    var weighted := FRAME_SAMPLES * sumSquare;
    assert weighted < U64;
    var squared := Square(signedSum);
    assert squared <= I64_MAX;
    if weighted < squared { return false, 0; }
    return true, weighted - squared;
  }

  /** The moments of one frame. */
  method Moments(frame: array<Sample>) returns (signedSum: int, sumSquare: nat)
    requires frame.Length == FRAME_SAMPLES
    ensures signedSum == Sum(frame[..]) && sumSquare == SumSq(frame[..])
  {
    signedSum, sumSquare := 0, 0;
    for i := 0 to frame.Length
      invariant signedSum == Sum(frame[..i]) && sumSquare == SumSq(frame[..i])
    {
      assert frame[..i + 1][..i] == frame[..i];
      MomentBounds(frame[..i + 1]);
      signedSum := signedSum + frame[i];
      sumSquare := sumSquare + Square(frame[i]);
      assert -I64_MAX <= signedSum <= I64_MAX && sumSquare < U64;
    }
    assert frame[..frame.Length] == frame[..];
  }

  /** A whole frame always passes the guard, and its numerator is the sum over all pairs. */
  method FrameNumerator(frame: array<Sample>) returns (output: nat)
    requires frame.Length == FRAME_SAMPLES
    ensures output == Pairs(frame[..]) <= 109951162777600
  {
    var signedSum, sumSquare := Moments(frame);
    MomentBounds(frame[..]);
    NumeratorIsNatural(frame[..]);
    var ok: bool;
    ok, output := AcNumerator(signedSum, sumSquare);
    assert ok;
    NumeratorIsPairs(frame[..]);
  }

  function Total(ns: seq<nat>): nat { if ns == [] then 0 else Total(ns[..|ns| - 1]) + ns[|ns| - 1] }

  function Most(ns: seq<nat>): nat {
    if ns == [] then 0
    else
      var m := Most(ns[..|ns| - 1]);
      if ns[|ns| - 1] > m then ns[|ns| - 1] else m
  }

  /** What a window of frames has accumulated. */
  class Window {
    var blocks: nat
    var acSum: nat
    var acMax: nat
    ghost var numerators: seq<nat>

    ghost predicate Valid()
      reads this
    {
      && blocks == |numerators| <= FRAMES && acSum == Total(numerators) && acMax == Most(numerators)
      && acSum <= blocks * 109951162777600
    }

    constructor ()
      ensures Valid() && numerators == []
    {
      blocks, acSum, acMax, numerators := 0, 0, 0, [];
    }

    /** One more complete frame; 25 of them stay below two to the 52nd. */
    method Add(frame: array<Sample>)
      requires Valid() && frame.Length == FRAME_SAMPLES && blocks < FRAMES
      modifies this
      ensures Valid() && numerators == old(numerators) + [Pairs(frame[..])] && acSum < 0x10_0000_0000_0000
    {
      var ac := FrameNumerator(frame);
      numerators := numerators + [ac];
      assert numerators[..|numerators| - 1] == old(numerators);
      acSum := acSum + ac;
      if ac > acMax { acMax := ac; }
      blocks := blocks + 1;
    }
  }
}
