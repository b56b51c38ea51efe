/**
The arithmetic of the BM25 score (src/knowledge_core.py), over real numbers. Of the logarithm
only this is used: it is zero at one and strictly increasing.
*/
module Bm25 {

  ghost predicate IsLog(log: real -> real) {
    log(1.0) == 0.0 && forall x: real, y: real :: 0.0 < x < y ==> log(x) < log(y)
  }

  /** The argument of the logarithm in idf. */
  function IdfArgument(totalDocs: nat, docFreq: nat): real {
    1.0 + (totalDocs as real - docFreq as real + 0.5) / (docFreq as real + 0.5)
  }

  function Idf(log: real -> real, totalDocs: nat, docFreq: nat): real {
    log(IdfArgument(totalDocs, docFreq))
  }

  /** The part of the denominator that does not depend on the term. */
  function LengthPenalty(k1: real, b: real, ratio: real): real {
    k1 * (1.0 - b + b * ratio)
  }

  function Denominator(freq: nat, k1: real, b: real, ratio: real): real {
    freq as real + LengthPenalty(k1, b, ratio)
  }

  /** Division where Python divides; a zero divisor is told apart by the caller. */
  function Quotient(x: real, y: real): real {
    if y == 0.0 then 0.0 else x / y
  }

  /** What one matching term adds to the score of a document. */
  function Contribution(idf: real, freq: nat, k1: real, b: real, ratio: real): real {
    idf * Quotient(freq as real * (k1 + 1.0), Denominator(freq, k1, b, ratio))
  }

  lemma Times(a: real, b: real)
    requires a > 0.0 && b > 0.0
    ensures a * b > 0.0
  {
  }

  lemma TimesLess(a: real, b: real, c: real)
    requires a > 0.0 && b < c
    ensures a * b < a * c
  {
    Times(a, c - b);
    assert a * (c - b) == a * c - a * b;
  }

  lemma CancelLess(a: real, b: real, c: real)
    requires c > 0.0 && a * c < b * c
    ensures a < b
  {
    var d := b - a;
    assert d * c == b * c - a * c;
    assert !(d <= 0.0) by {
      NotPositive(d, c);
    }
  }

  lemma NotPositive(d: real, c: real)
    requires c > 0.0
    ensures d <= 0.0 ==> d * c <= 0.0
  {
  }

  lemma QuotientLess(x: real, y: real, bound: real)
    requires y > 0.0 && x < bound * y
    ensures x / y < bound
  {
    assert (x / y) * y == x;
    CancelLess(x / y, bound, y);
  }

  lemma QuotientPositive(x: real, y: real)
    requires x > 0.0 && y > 0.0
    ensures x / y > 0.0
  {
  }

  /** A term found in at least one document, and in no more than there are, has positive weight. */
  lemma IdfIsPositive(log: real -> real, totalDocs: nat, docFreq: nat)
    requires IsLog(log) && docFreq <= totalDocs
    ensures Idf(log, totalDocs, docFreq) > 0.0
  {
    QuotientPositive(totalDocs as real - docFreq as real + 0.5, docFreq as real + 0.5);
    assert log(1.0) < log(IdfArgument(totalDocs, docFreq));
  }

  /** The rarer the term, the greater its weight. */
  lemma RarerWeighsMore(log: real -> real, totalDocs: nat, rare: nat, common: nat)
    requires IsLog(log) && rare < common <= totalDocs
    ensures Idf(log, totalDocs, rare) > Idf(log, totalDocs, common)
  {
    var n, r, c := totalDocs as real, rare as real, common as real;
    var x, y := (n - r + 0.5) / (r + 0.5), (n - c + 0.5) / (c + 0.5);
    assert x * (r + 0.5) == n - r + 0.5 && y * (c + 0.5) == n - c + 0.5;
    assert (x + 1.0) * (r + 0.5) == n + 1.0 && (y + 1.0) * (c + 0.5) == n + 1.0;
    QuotientPositive(n - c + 0.5, c + 0.5);
    Times(y + 1.0, c - r);
    assert (y + 1.0) * (c + 0.5) == (y + 1.0) * (r + 0.5) + (y + 1.0) * (c - r);
    CancelLess(y + 1.0, x + 1.0, r + 0.5);
    assert log(IdfArgument(totalDocs, common)) < log(IdfArgument(totalDocs, rare));
  }

  /** The weight in closed form: the logarithm of N + 1 over n + 1/2. */
  lemma IdfClosedForm(log: real -> real, totalDocs: nat, docFreq: nat)
    ensures Idf(log, totalDocs, docFreq) == log((totalDocs as real + 1.0) / (docFreq as real + 0.5))
  {
    var n, d := totalDocs as real, docFreq as real + 0.5;
    var q := (n - docFreq as real + 0.5) / d;
    assert q * d == n + 1.0 - d;
    assert (1.0 + q) * d == n + 1.0;
    SameQuotient(1.0 + q, n + 1.0, d);
  }

  lemma SameQuotient(q: real, x: real, y: real)
    requires y > 0.0 && q * y == x
    ensures q == x / y
  {
  }

  /** The contribution as the textbook has it, without the division. */
  lemma ContributionTells(idf: real, freq: nat, k1: real, b: real, ratio: real)
    requires freq as real + k1 * (1.0 - b + b * ratio) != 0.0
    ensures Contribution(idf, freq, k1, b, ratio) * (freq as real + k1 * (1.0 - b + b * ratio))
      == idf * (freq as real * (k1 + 1.0))
  {
    var num, den := freq as real * (k1 + 1.0), freq as real + k1 * (1.0 - b + b * ratio);
    assert den == Denominator(freq, k1, b, ratio);
    var q := num / den;
    assert q * den == num;
    assert (idf * q) * den == idf * (q * den);
  }

  /** The usual range of the two parameters. */
  predicate UsualParameters(k1: real, b: real) {
    k1 > 0.0 && 0.0 <= b <= 1.0
  }

  lemma PenaltyIsPositive(k1: real, b: real, ratio: real)
    requires UsualParameters(k1, b) && ratio > 0.0
    ensures LengthPenalty(k1, b, ratio) > 0.0
    ensures forall freq: nat :: Denominator(freq, k1, b, ratio) > 0.0
  {
    if b > 0.0 {
      Times(b, ratio);
    }
    assert 1.0 - b + b * ratio > 0.0;
    Times(k1, 1.0 - b + b * ratio);
  }

  /** A term that occurs adds something, but always less than k1 + 1 times its weight. */
  lemma ContributionBounds(idf: real, freq: nat, k1: real, b: real, ratio: real)
    requires UsualParameters(k1, b) && ratio > 0.0 && idf > 0.0 && freq > 0
    ensures 0.0 < Contribution(idf, freq, k1, b, ratio) < idf * (k1 + 1.0)
  {
    PenaltyIsPositive(k1, b, ratio);
    var f, p := freq as real, LengthPenalty(k1, b, ratio);
    var num, den := f * (k1 + 1.0), f + p;
    Times(f, k1 + 1.0);
    QuotientPositive(num, den);
    Times(k1 + 1.0, p);
    assert (k1 + 1.0) * den == num + (k1 + 1.0) * p;
    QuotientLess(num, den, k1 + 1.0);
    Times(idf, num / den);
    TimesLess(idf, num / den, k1 + 1.0);
  }

  /** One more occurrence always raises the contribution. */
  lemma ContributionRises(idf: real, less: nat, more: nat, k1: real, b: real, ratio: real)
    requires UsualParameters(k1, b) && ratio > 0.0 && idf > 0.0 && less < more
    ensures Contribution(idf, less, k1, b, ratio) < Contribution(idf, more, k1, b, ratio)
  {
    PenaltyIsPositive(k1, b, ratio);
    var x, y, p, k := less as real, more as real, LengthPenalty(k1, b, ratio), k1 + 1.0;
    var q := (y * k) / (y + p);
    assert q * (y + p) == y * k;
    SaturationRises(x, y, p, k, q);
    QuotientLess(x * k, x + p, q);
    TimesLess(idf, (x * k) / (x + p), q);
  }

  lemma SaturationRises(x: real, y: real, p: real, k: real, q: real)
    requires 0.0 <= x < y && p > 0.0 && k > 0.0 && q * (y + p) == y * k
    ensures x * k < q * (x + p)
  {
    // Multiply by y + p: x k (y + p) < y k (x + p), because x p < y p.
    var left, right := x * k, q * (x + p);
    assert right * (y + p) == (q * (y + p)) * (x + p);
    assert right * (y + p) == (y * k) * (x + p);
    assert (y * k) * (x + p) - left * (y + p) == k * (p * (y - x));
    Times(p, y - x);
    Times(k, p * (y - x));
    CancelLess(left, right, y + p);
  }
}
