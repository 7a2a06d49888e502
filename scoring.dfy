/**
 * Scoring one verified response against a target claim count `k`: precision over the
 * verified claims, recall against `k` capped at 1, and their harmonic mean.
 * Real arithmetic stands for the source's `f32`.
 */
module Scoring {
  import opened Types

  datatype PerResponseScore = PerResponseScore(
    supported: nat, total: nat, precision: real, recall: real, f1: real)

  /** The number of results labelled Supported. */
  function CountSupported(results: seq<ClaimVerification>): (n: nat)
    ensures n <= |results|
  {
    if results == [] then 0
    else (if results[0].verificationResult == Supported then 1 else 0) + CountSupported(results[1..])
  }

  /** Every result is Supported exactly when all of them are counted. */
  lemma {:induction false} CountAllSupported(results: seq<ClaimVerification>)
    ensures CountSupported(results) == |results|
        <==> forall i :: 0 <= i < |results| ==> results[i].verificationResult == Supported
  {
    if results != [] {
      CountAllSupported(results[1..]);
      if CountSupported(results) == |results| {
        assert results[0].verificationResult == Supported;
      }
    }
  }

  /** `f32::min(x, 1.0)`. */
  function MinOne(x: real): real {
    if x < 1.0 then x else 1.0
  }

  /** The F1 of a precision and a recall, zero when both are zero. */
  function F1(p: real, r: real): real {
    if p + r > 0.0 then 2.0 * p * r / (p + r) else 0.0
  }

  lemma CancelPositive(a: real, b: real, s: real)
    requires s > 0.0 && a * s <= b * s
    ensures a <= b
  {
    assert (b - a) * s >= 0.0;
  }

  lemma CancelPositiveStrict(a: real, b: real, s: real)
    requires s > 0.0 && a * s < b * s
    ensures a < b
  {
    assert (b - a) * s > 0.0;
  }

  lemma MulMono(a: real, b: real, c: real)
    requires a <= b && c >= 0.0
    ensures a * c <= b * c && c * a <= c * b
  {
    assert (b - a) * c >= 0.0;
    assert c * (b - a) >= 0.0;
  }

  lemma Distribute(a: real, b: real, c: real)
    ensures a * (b + c) == a * b + a * c
  {
  }

  lemma DivMul(x: real, s: real)
    requires s != 0.0
    ensures (x / s) * s == x
  {
  }

  /** The ratio of two counts: in [0, 1] when the first is at most the second, 1 exactly when they agree. */
  lemma RatioFacts(n: nat, d: nat)
    requires d > 0
    ensures 0.0 <= n as real / d as real
    ensures n <= d ==> n as real / d as real <= 1.0
    ensures n as real / d as real == 1.0 <==> n == d
    ensures n as real / d as real < 1.0 <==> n < d
    ensures n as real / d as real == 0.0 <==> n == 0
  {
    var q := n as real / d as real;
    assert q * d as real == n as real;
    if q < 1.0 {
      assert q * d as real < d as real;
    }
    if n < d {
      CancelPositiveStrict(q, 1.0, d as real);
    }
  }

  /** F1 does not depend on which ratio is the precision. */
  lemma F1Symmetric(p: real, r: real)
    ensures F1(p, r) == F1(r, p)
  {
    assert p * r == r * p;
  }

  /** The harmonic mean of `lo <= hi` lies between them. */
  lemma HarmonicBetween(lo: real, hi: real)
    requires 0.0 <= lo <= hi && lo + hi > 0.0
    ensures lo <= F1(lo, hi) <= hi
    ensures F1(lo, hi) == 0.0 <==> lo == 0.0
  {
    var s := lo + hi;
    var m := lo * hi;
    var f := F1(lo, hi);
    assert f == (2.0 * m) / s;
    DivMul(2.0 * m, s);
    MulMono(lo, hi, lo);
    MulMono(lo, hi, hi);
    Distribute(lo, lo, hi);
    Distribute(hi, lo, hi);
    assert hi * lo == m;
    assert f * s == 2.0 * m;
    assert m <= hi * hi;
    assert hi * s == m + hi * hi;
    CancelPositive(lo, f, s);
    CancelPositive(f, hi, s);
    if lo > 0.0 {
      assert m > 0.0;
    }
  }

  /** The harmonic mean of two ratios lies between them, so in [0, 1], and vanishes only with one of them. */
  lemma HarmonicMeanBounds(p: real, r: real)
    requires 0.0 <= p <= 1.0 && 0.0 <= r <= 1.0
    ensures 0.0 <= F1(p, r) <= 1.0
    ensures F1(p, r) == 0.0 <==> (p == 0.0 || r == 0.0)
    ensures p + r > 0.0 ==>
      (if p < r then p else r) <= F1(p, r) <= (if p < r then r else p)
  {
    if p + r > 0.0 {
      if p < r {
        HarmonicBetween(p, r);
      } else {
        HarmonicBetween(r, p);
        F1Symmetric(p, r);
      }
    }
  }

  /** `score_response`: the score of a verified response against the target count `k`. */
  function Score(vr: VerificationRecord, k: nat): (s: PerResponseScore)
    requires k > 0
    ensures s.supported == CountSupported(vr.claimVerificationResult)
    ensures s.supported <= |vr.claimVerificationResult| && s.supported <= s.total
    ensures s.total >= 1 && (|vr.claimVerificationResult| > 0 ==> s.total == |vr.claimVerificationResult|)
    ensures |vr.claimVerificationResult| == 0 ==> s.total == 1
    ensures 0.0 <= s.precision <= 1.0
    ensures s.precision == 1.0 <==>
      |vr.claimVerificationResult| > 0
      && forall i :: 0 <= i < |vr.claimVerificationResult| ==>
        vr.claimVerificationResult[i].verificationResult == Supported
    ensures 0.0 <= s.recall <= 1.0
    ensures s.recall == 1.0 <==> s.supported >= k
    ensures 0.0 <= s.f1 <= 1.0
    ensures s.f1 == 0.0 <==> s.supported == 0
    ensures s.precision == s.supported as real / s.total as real
    ensures s.recall == MinOne(s.supported as real / k as real)
    ensures s.f1 == F1(s.precision, s.recall)
  {
    var results := vr.claimVerificationResult;
    var supported := CountSupported(results);
    var total := if |results| > 1 then |results| else 1;
    var precision := supported as real / total as real;
    var recall := MinOne(supported as real / k as real);
    var f1 := F1(precision, recall);
    CountAllSupported(results);
    RatioFacts(supported, total);
    RatioFacts(supported, k);
    HarmonicMeanBounds(precision, recall);
    PerResponseScore(supported, total, precision, recall, f1)
  }

  /** With no results: nothing supported, a total of one, and all three ratios zero. */
  lemma EmptyScore(vr: VerificationRecord, k: nat)
    requires k > 0 && vr.claimVerificationResult == []
    ensures Score(vr, k) == PerResponseScore(0, 1, 0.0, 0.0, 0.0)
  {
  }

  /** One supported claim out of one with a target of four: precision 1, recall 0.25, F1 0.4. */
  lemma OneOfOneAgainstFour(vr: VerificationRecord)
    requires |vr.claimVerificationResult| == 1
    requires vr.claimVerificationResult[0].verificationResult == Supported
    ensures var s := Score(vr, 4); s.precision == 1.0 && s.recall == 0.25 && s.f1 == 0.4
  {
    assert CountSupported(vr.claimVerificationResult) == 1;
  }

  /** Three supported claims out of six with a target of six: all three ratios are one half. */
  lemma HalfSupported(vr: VerificationRecord)
    requires |vr.claimVerificationResult| == 6 && CountSupported(vr.claimVerificationResult) == 3
    ensures var s := Score(vr, 6); s.precision == 0.5 && s.recall == 0.5 && s.f1 == 0.5
  {
  }

  /** More supported claims than the target: recall saturates at one. */
  lemma RecallSaturates(vr: VerificationRecord, k: nat)
    requires 0 < k <= CountSupported(vr.claimVerificationResult)
    ensures Score(vr, k).recall == 1.0
    ensures Score(vr, k).f1 == F1(Score(vr, k).precision, 1.0)
  {
  }
}
