/** Alignment scoring by CIGAR (rmdup.py:43-55): the percentage of bases
    covered by match operations, or -1 for an alignment of length zero. */
module Scoring {
  import opened Records

  /** Sum of the lengths of all operations. */
  function TotalLength(cigar: seq<CigarOp>): nat
  {
    if |cigar| == 0 then 0
    else TotalLength(cigar[..|cigar| - 1]) + cigar[|cigar| - 1].len
  }

  /** Sum of the lengths of the match operations (code 0) only. */
  function MatchLength(cigar: seq<CigarOp>): nat
  {
    if |cigar| == 0 then 0
    else
      var last := cigar[|cigar| - 1];
      MatchLength(cigar[..|cigar| - 1]) + (if last.op == MatchOp then last.len else 0)
  }

  lemma {:induction false} MatchWithinTotal(cigar: seq<CigarOp>)
    ensures MatchLength(cigar) <= TotalLength(cigar)
  {
    if |cigar| > 0 {
      MatchWithinTotal(cigar[..|cigar| - 1]);
    }
  }

  /** `100 * m / t` rounded half away from zero, which for non-negative
      operands is rounding half up. */
  function RoundedPercent(m: nat, t: nat): (p: int)
    requires 0 < t && m <= t
    ensures 0 <= p <= 100
  {
    PercentQuotientRange(200 * m + t, 2 * t);
    (200 * m + t) / (2 * t)
  }

  /** A quotient of a non-negative number below `101 * d` lies in 0..100. */
  lemma PercentQuotientRange(n: int, d: int)
    requires 0 < d && 0 <= n < 101 * d
    ensures 0 <= n / d <= 100
  {
    var q, r := n / d, n % d;
    assert n == q * d + r && 0 <= r < d;
    if q < 0 {
      MulMonotonic(q, -1, d);
    }
    if q > 100 {
      MulMonotonic(101, q, d);
    }
  }

  /** The rounded percentage brackets `100 * m / t` to within one half. */
  lemma RoundedPercentBracket(m: nat, t: nat)
    requires 0 < t && m <= t
    ensures var p := RoundedPercent(m, t);
      p * 2 * t <= 200 * m + t < (p + 1) * 2 * t
  {
    var n, d := 200 * m + t, 2 * t;
    var q, r := n / d, n % d;
    assert n == q * d + r && 0 <= r < d;
    assert q * 2 * t == q * d;
    assert (q + 1) * 2 * t == q * d + d;
  }

  /** The score of one alignment. */
  function CigarScore(cigar: seq<CigarOp>): (s: int)
    ensures s == -1 <==> TotalLength(cigar) == 0
    ensures s != -1 ==> 0 <= s <= 100
  {
    if TotalLength(cigar) == 0 then -1
    else
      MatchWithinTotal(cigar);
      RoundedPercent(MatchLength(cigar), TotalLength(cigar))
  }

  /** ScoreByCigar: the counting loop of the source. */
  method ScoreByCigar(cigar: seq<CigarOp>) returns (score: int)
    ensures score == CigarScore(cigar)
  {
    var totalCount: nat := 0;
    var matchCount: nat := 0;
    var i := 0;
    while i < |cigar|
      invariant 0 <= i <= |cigar|
      invariant totalCount == TotalLength(cigar[..i])
      invariant matchCount == MatchLength(cigar[..i])
    {
      var tag := cigar[i];
      assert cigar[..i + 1][..i] == cigar[..i];
      if tag.op == MatchOp {
        matchCount := matchCount + tag.len;
      }
      totalCount := totalCount + tag.len;
      i := i + 1;
    }
    assert cigar[..|cigar|] == cigar;
    if totalCount == 0 {
      return -1;
    }
    MatchWithinTotal(cigar);
    score := RoundedPercent(matchCount, totalCount);
  }

  /** ReadPairScoreByCigar: the sum of both mates' scores. */
  function PairScore(cigar1: seq<CigarOp>, cigar2: seq<CigarOp>): (s: int)
    ensures -2 <= s <= 200
    ensures s == -2 <==> TotalLength(cigar1) == 0 && TotalLength(cigar2) == 0
    ensures TotalLength(cigar1) > 0 && TotalLength(cigar2) > 0 ==> 0 <= s
  {
    CigarScore(cigar1) + CigarScore(cigar2)
  }

  lemma {:induction false} AllMatchLength(cigar: seq<CigarOp>)
    requires forall i :: 0 <= i < |cigar| ==> cigar[i].op == MatchOp
    ensures MatchLength(cigar) == TotalLength(cigar)
  {
    if |cigar| > 0 {
      AllMatchLength(cigar[..|cigar| - 1]);
    }
  }

  lemma {:induction false} NoMatchLength(cigar: seq<CigarOp>)
    requires forall i :: 0 <= i < |cigar| ==> cigar[i].op != MatchOp
    ensures MatchLength(cigar) == 0
  {
    if |cigar| > 0 {
      NoMatchLength(cigar[..|cigar| - 1]);
    }
  }

  lemma MulMonotonic(a: int, b: int, d: int)
    requires a <= b && 0 <= d
    ensures a * d <= b * d
  {
    assert b * d - a * d == (b - a) * d;
  }

  /** A whole multiple of `d` strictly between `-d` and `d` is zero. */
  lemma MultipleInBand(k: int, d: int)
    requires 0 < d && -d < k * d < d
    ensures k == 0
  {
    if k >= 1 {
      MulMonotonic(1, k, d);
    } else if k <= -1 {
      MulMonotonic(k, -1, d);
    }
  }

  /** Integer division is determined by the quotient's bracketing. */
  lemma DivisionBracket(n: int, d: int, q: int)
    requires 0 < d && q * d <= n < q * d + d
    ensures n / d == q
  {
    var r, m := n / d, n % d;
    assert n == r * d + m && 0 <= m < d;
    assert (r - q) * d == r * d - q * d;
    MultipleInBand(r - q, d);
  }

  /** Percentages at full, no and half match. */
  lemma RoundedPercentPoints(m: nat, t: nat)
    requires 0 < t && m <= t
    ensures m == t ==> RoundedPercent(m, t) == 100
    ensures m == 0 ==> RoundedPercent(m, t) == 0
    ensures 2 * m == t ==> RoundedPercent(m, t) == 50
  {
    if m == t {
      DivisionBracket(200 * m + t, 2 * t, 100);
    }
    if m == 0 {
      DivisionBracket(200 * m + t, 2 * t, 0);
    }
    if 2 * m == t {
      DivisionBracket(200 * m + t, 2 * t, 50);
    }
  }

  /** An alignment made only of match operations scores 100. */
  lemma AllMatchScoresHundred(cigar: seq<CigarOp>)
    requires TotalLength(cigar) > 0
    requires forall i :: 0 <= i < |cigar| ==> cigar[i].op == MatchOp
    ensures CigarScore(cigar) == 100
  {
    AllMatchLength(cigar);
    RoundedPercentPoints(MatchLength(cigar), TotalLength(cigar));
  }

  /** An alignment with no match operation scores 0. */
  lemma NoMatchScoresZero(cigar: seq<CigarOp>)
    requires TotalLength(cigar) > 0
    requires forall i :: 0 <= i < |cigar| ==> cigar[i].op != MatchOp
    ensures CigarScore(cigar) == 0
  {
    NoMatchLength(cigar);
    RoundedPercentPoints(MatchLength(cigar), TotalLength(cigar));
  }

  /** An alignment whose match operations cover half its length scores 50. */
  lemma HalfMatchScoresFifty(cigar: seq<CigarOp>)
    requires TotalLength(cigar) > 0
    requires 2 * MatchLength(cigar) == TotalLength(cigar)
    ensures CigarScore(cigar) == 50
  {
    MatchWithinTotal(cigar);
    RoundedPercentPoints(MatchLength(cigar), TotalLength(cigar));
  }

  /** Only the distinction "code 0 or not" matters: two alignments with the
      same lengths whose operations agree on being a match score the same,
      whatever the other operation codes are. */
  lemma {:induction false} OnlyMatchOpCounts(c1: seq<CigarOp>, c2: seq<CigarOp>)
    requires |c1| == |c2|
    requires forall i :: 0 <= i < |c1| ==> c1[i].len == c2[i].len
    requires forall i :: 0 <= i < |c1| ==> (c1[i].op == MatchOp <==> c2[i].op == MatchOp)
    ensures TotalLength(c1) == TotalLength(c2) && MatchLength(c1) == MatchLength(c2)
    ensures CigarScore(c1) == CigarScore(c2)
  {
    if |c1| > 0 {
      OnlyMatchOpCounts(c1[..|c1| - 1], c2[..|c2| - 1]);
    }
  }
}
