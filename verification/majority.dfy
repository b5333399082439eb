/**
  The majority threshold of a voting (`compute_majority`): the number of
  votes that has to be exceeded, computed exactly as the floor of
  majority * votes_sum.
 */
module Majority {
  import opened Wrappers
  import opened Fractions

  /** The stored majority codes of a voting. */
  const FiftyMajority: string := "50"
  const TwoThirdsMajority: string := "2/3"

  /** A majority is either given as a Fraction or as one of the stored codes. */
  datatype MajoritySpec = Given(fraction: Fraction) | Described(description: string)

  /** The ValueError raised for an unknown description. */
  datatype MajorityError = InvalidMajorityDescription(description: string)

  predicate WellFormed(m: MajoritySpec) {
    m.Given? ==> m.fraction.Valid()
  }

  /** The fraction a majority stands for: "50" is 1/2, "2/3" is 2/3, other codes are refused. */
  function MajorityFraction(m: MajoritySpec): (r: Result<Fraction, MajorityError>)
    requires WellFormed(m)
    ensures r.Success? ==> r.value.Valid()
    ensures m.Given? ==> r == Success(m.fraction)
    ensures m.Described? ==> (r.Failure? <==> m.description !in {FiftyMajority, TwoThirdsMajority})
    ensures m == Described(FiftyMajority) ==> r.Success? && r.value.Value() == 1.0 / 2.0
    ensures m == Described(TwoThirdsMajority) ==> r.Success? && r.value.Value() == 2.0 / 3.0
  {
    match m
    case Given(f) => Success(f)
    case Described(d) =>
      if d == FiftyMajority then Success(Fraction(1, 2))
      else if d == TwoThirdsMajority then Success(Fraction(2, 3))
      else Failure(InvalidMajorityDescription(d))
  }

  /**
    `compute_majority(majority, votes_sum)`: the integer part of
    majority * votes_sum, that is its floor; a voting passes with strictly
    more votes than this.
   */
  function ComputeMajority(m: MajoritySpec, votesSum: int): (r: Result<int, MajorityError>)
    requires WellFormed(m)
    ensures r.Failure? <==> MajorityFraction(m).Failure?
    ensures r.Failure? ==> r.error == MajorityFraction(m).error
    ensures r.Success? ==>
      var exact := MajorityFraction(m).value.Value() * votesSum as real;
      r.value as real <= exact < (r.value + 1) as real
  {
    match MajorityFraction(m)
    case Failure(e) => Failure(e)
    case Success(f) =>
      var (votesRequired, _) := Split(Mul(f, FromInt(votesSum)));
      Success(votesRequired)
  }

  /** "More than the threshold" is exactly "more than majority * votes_sum". */
  lemma MoreThanThreshold(m: MajoritySpec, votesSum: int, votes: int)
    requires WellFormed(m) && ComputeMajority(m, votesSum).Success?
    ensures votes > ComputeMajority(m, votesSum).value
        <==> votes as real > MajorityFraction(m).value.Value() * votesSum as real
  {
    var t := ComputeMajority(m, votesSum).value;
    if votes > t {
      assert votes as real >= (t + 1) as real;
    }
  }

  /** The documented example: 51 voters with majority 1/2 give 25, so 26 votes pass. */
  lemma FiftyOfFiftyOne()
    ensures ComputeMajority(Described(FiftyMajority), 51) == Success(25)
    ensures ComputeMajority(Given(Fraction(1, 2)), 51) == Success(25)
  {
    var t := ComputeMajority(Described(FiftyMajority), 51).value;
    assert t as real <= 25.5 < (t + 1) as real;
  }

  /** Ten voters under a simple majority: 5 votes do not pass, 6 do. */
  lemma FiftyOfTen()
    ensures ComputeMajority(Described(FiftyMajority), 10) == Success(5)
    ensures !(5 > ComputeMajority(Described(FiftyMajority), 10).value)
    ensures 6 > ComputeMajority(Described(FiftyMajority), 10).value
  {
    var t := ComputeMajority(Described(FiftyMajority), 10).value;
    assert t as real <= 5.0 < (t + 1) as real;
  }

  /** Thirty voters under two-thirds: the threshold is 20, so 21 votes are needed. */
  lemma TwoThirdsOfThirty()
    ensures ComputeMajority(Described(TwoThirdsMajority), 30) == Success(20)
  {
    var p := MajorityFraction(Described(TwoThirdsMajority)).value.Value();
    assert p * 30.0 == 20.0 by {
      assert p == 2.0 / 3.0;
    }
    var t := ComputeMajority(Described(TwoThirdsMajority), 30).value;
    assert t as real <= 20.0 < (t + 1) as real;
  }

  /** Unknown codes are refused with ValueError. */
  lemma UnknownDescription(d: string, votesSum: int)
    requires d != FiftyMajority && d != TwoThirdsMajority
    ensures ComputeMajority(Described(d), votesSum) == Failure(InvalidMajorityDescription(d))
  {
  }

  /**
    With a majority between 0 and 1 (the documented, unchecked precondition)
    and a non-negative vote sum, the threshold lies in [0, votes_sum].
   */
  lemma ThresholdBounds(m: MajoritySpec, votesSum: int)
    requires WellFormed(m) && MajorityFraction(m).Success?
    requires 0.0 <= MajorityFraction(m).value.Value() <= 1.0 && votesSum >= 0
    ensures 0 <= ComputeMajority(m, votesSum).value <= votesSum
  {
    var f := MajorityFraction(m).value;
    ScaledWithin(f, votesSum);
    SplitWithin(Mul(f, FromInt(votesSum)), votesSum);
  }

  /** f * n lies in [0, n] for f in [0, 1] and n >= 0. */
  lemma ScaledWithin(f: Fraction, n: int)
    requires f.Valid() && 0.0 <= f.Value() <= 1.0 && n >= 0
    ensures 0.0 <= Mul(f, FromInt(n)).Value() <= n as real
  {
    var y := FromInt(n);
    ProductWithin(f.Value(), y.Value(), Mul(f, y).Value(), n as real);
  }

  lemma ProductWithin(p: real, x: real, z: real, m: real)
    requires 0.0 <= p <= 1.0 && x == m && m >= 0.0 && z == p * x
    ensures 0.0 <= z <= m
  {
    ScaleWithin(p, x);
  }

  /** The integer part of a value in [0, n] lies in [0, n]. */
  lemma SplitWithin(x: Fraction, n: int)
    requires x.Valid() && 0.0 <= x.Value() <= n as real
    ensures 0 <= Split(x).0 <= n
  {
  }

  /** A share p in [0, 1] of a non-negative amount lies between 0 and the amount. */
  lemma ScaleWithin(p: real, x: real)
    requires 0.0 <= p <= 1.0 && x >= 0.0
    ensures 0.0 <= p * x <= x
  {
    assert p * x >= 0.0 && (1.0 - p) * x >= 0.0;
    assert x - p * x == (1.0 - p) * x;
  }

  /** For a non-negative majority the threshold does not decrease as votes_sum grows. */
  lemma ThresholdMonotone(m: MajoritySpec, s1: int, s2: int)
    requires WellFormed(m) && MajorityFraction(m).Success?
    requires 0.0 <= MajorityFraction(m).value.Value() && s1 <= s2
    ensures ComputeMajority(m, s1).value <= ComputeMajority(m, s2).value
  {
    var f := MajorityFraction(m).value;
    ScaleMonotone(f.Value(), s1 as real, s2 as real);
    SplitMonotone(Mul(f, FromInt(s1)), Mul(f, FromInt(s2)));
  }

  lemma ScaleMonotone(p: real, a: real, b: real)
    requires 0.0 <= p && a <= b
    ensures p * a <= p * b
  {
    assert p * (b - a) >= 0.0;
    assert p * b - p * a == p * (b - a);
  }
}
