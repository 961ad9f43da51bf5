/** Selection of one winning pair across all pair buckets of a template
    group (UniquePairedReads, rmdup.py:120-183). */
module PairSelection {
  import opened Records
  import opened Scoring
  import opened Geometry

  /** What the filters decide about one bucket, in the order they are
      applied: a missing mate, mates on different references, a span out of
      bounds, or else a candidate with its pair score. */
  datatype Verdict = MissingMate | WrongChrom | WrongSize | Candidate(score: int)

  function Classify(b: Bucket, lowerLimit: int, upperLimit: int): (v: Verdict)
    ensures v.Candidate? ==> b.mate1.Some? && b.mate2.Some?
  {
    if b.mate1.None? || b.mate2.None? then MissingMate
    else if b.mate1.value.refName != b.mate2.value.refName then WrongChrom
    else
      var pairLen := ReadPairLen(b.mate1, b.mate2);
      if pairLen < lowerLimit || pairLen > upperLimit then WrongSize
      else Candidate(PairScore(b.mate1.value.cigar, b.mate2.value.cigar))
  }

  /** The log lines of a bucket the filters exclude; none for a candidate. */
  function ExclusionLog(key: string, b: Bucket, lowerLimit: int, upperLimit: int): seq<LogEntry>
  {
    match Classify(b, lowerLimit, upperLimit)
    case MissingMate =>
      if b.mate1.None? && b.mate2.None? then [LogEntry(ReadError, OfKey(key))]
      else if b.mate1.None? then [LogEntry(ReadError, OfRead(b.mate2.value))]
      else [LogEntry(ReadError, OfRead(b.mate1.value))]
    case WrongChrom =>
      [LogEntry(ReadWrongChrom, OfRead(b.mate1.value)), LogEntry(ReadWrongChrom, OfRead(b.mate2.value))]
    case WrongSize =>
      [LogEntry(ReadWrongSize, OfRead(b.mate1.value)), LogEntry(ReadWrongSize, OfRead(b.mate2.value))]
    case Candidate(_) => []
  }

  /** A bucket is logged by the filters exactly when it is not a candidate,
      with one line for a missing mate and two otherwise. */
  lemma ExclusionLogMeansExcluded(key: string, b: Bucket, lo: int, up: int)
    ensures var v, r := Classify(b, lo, up), ExclusionLog(key, b, lo, up);
      && (r == [] <==> v.Candidate?)
      && (v.MissingMate? ==> |r| == 1)
      && (v.WrongChrom? || v.WrongSize? ==> |r| == 2)
  {
  }

  /** Both mates of a displaced best pair, logged as low score. */
  function LowScorePair(b: Bucket): seq<LogEntry>
    requires b.mate1.Some? && b.mate2.Some?
  {
    [LogEntry(ReadLowScore, OfRead(b.mate1.value)), LogEntry(ReadLowScore, OfRead(b.mate2.value))]
  }

  /** The running state of the scan over the buckets: the best pair score
      so far (initially -1), the visiting position of the best bucket, and
      what has been logged. */
  datatype PairScan = PairScan(bestScore: int, best: Option<nat>, log: seq<LogEntry>)

  function ScoreAt(d: map<string, Bucket>, order: seq<string>, lo: int, up: int, j: nat): Verdict
    requires j < |order| && KeysIn(order, d)
  {
    Classify(d[order[j]], lo, up)
  }

  /** The scan after visiting the first `n` buckets: excluded buckets are
      logged and skipped; a candidate replaces the running best only on a
      strictly greater score, and only the displaced best is logged. */
  function ScanPairs(d: map<string, Bucket>, order: seq<string>, lo: int, up: int, n: nat): (s: PairScan)
    requires n <= |order| && KeysIn(order, d)
    ensures s.best.None? ==> s.bestScore == -1
    ensures s.best.Some? ==> s.best.value < n && ScoreAt(d, order, lo, up, s.best.value) == Candidate(s.bestScore)
  {
    if n == 0 then PairScan(-1, None, [])
    else
      var prev := ScanPairs(d, order, lo, up, n - 1);
      var key := order[n - 1];
      var b := d[key];
      match Classify(b, lo, up)
      case Candidate(score) =>
        if score > prev.bestScore then
          PairScan(score, Some(n - 1),
            prev.log + (if prev.best.Some? then LowScorePair(d[order[prev.best.value]]) else []))
        else prev
      case _ =>
        PairScan(prev.bestScore, prev.best, prev.log + ExclusionLog(key, b, lo, up))
  }

  /** One step of the scan, case by case. */
  lemma ScanPairsStep(d: map<string, Bucket>, order: seq<string>, lo: int, up: int, n: nat)
    requires 0 < n <= |order| && KeysIn(order, d)
    ensures var prev, s, v := ScanPairs(d, order, lo, up, n - 1), ScanPairs(d, order, lo, up, n), ScoreAt(d, order, lo, up, n - 1);
      && (!v.Candidate? ==>
            s == PairScan(prev.bestScore, prev.best, prev.log + ExclusionLog(order[n - 1], d[order[n - 1]], lo, up)))
      && (v.Candidate? && v.score > prev.bestScore ==>
            s == PairScan(v.score, Some(n - 1),
                   prev.log + (if prev.best.Some? then LowScorePair(d[order[prev.best.value]]) else [])))
      && (v.Candidate? && v.score <= prev.bestScore ==> s == prev)
  {
  }

  /** The best bucket is a candidate of maximal score, the earliest such,
      and it scores above -1; excluded buckets never take part. */
  lemma {:induction false} ScanPairsPicksEarliestMaximum(d: map<string, Bucket>, order: seq<string>, lo: int, up: int, n: nat)
    requires n <= |order| && KeysIn(order, d)
    ensures var s := ScanPairs(d, order, lo, up, n);
      && (s.best.None? <==>
            forall j :: 0 <= j < n && ScoreAt(d, order, lo, up, j).Candidate? ==> ScoreAt(d, order, lo, up, j).score <= -1)
      && (s.best.Some? ==>
            && 0 <= s.bestScore
            && (forall j :: 0 <= j < n && ScoreAt(d, order, lo, up, j).Candidate? ==>
                  ScoreAt(d, order, lo, up, j).score <= s.bestScore)
            && (forall j :: 0 <= j < s.best.value && ScoreAt(d, order, lo, up, j).Candidate? ==>
                  ScoreAt(d, order, lo, up, j).score < s.bestScore))
  {
    ScanPairsMaximal(d, order, lo, up, n);
    ScanPairsEarliest(d, order, lo, up, n);
    var s := ScanPairs(d, order, lo, up, n);
    if s.best.Some? {
      assert ScoreAt(d, order, lo, up, s.best.value) == Candidate(s.bestScore);
    }
  }

  /** No candidate visited scores above the running best, which is at least
      0 once there is one. */
  lemma ScanPairsMaximal(d: map<string, Bucket>, order: seq<string>, lo: int, up: int, n: nat)
    requires n <= |order| && KeysIn(order, d)
    ensures var s := ScanPairs(d, order, lo, up, n);
      && (s.best.Some? ==> 0 <= s.bestScore)
      && (forall j :: 0 <= j < n && ScoreAt(d, order, lo, up, j).Candidate? ==>
            ScoreAt(d, order, lo, up, j).score <= s.bestScore)
  {
    ScanPairsBestAboveSentinel(d, order, lo, up, n);
    forall j | 0 <= j < n && ScoreAt(d, order, lo, up, j).Candidate?
      ensures ScoreAt(d, order, lo, up, j).score <= ScanPairs(d, order, lo, up, n).bestScore
    {
      ScanPairsBound(d, order, lo, up, n, j);
    }
  }

  /** The running best score never drops below the initial -1, and is at
      least 0 once some bucket has been taken. */
  lemma {:induction false} ScanPairsBestAboveSentinel(d: map<string, Bucket>, order: seq<string>, lo: int, up: int, n: nat)
    requires n <= |order| && KeysIn(order, d)
    ensures var s := ScanPairs(d, order, lo, up, n);
      -1 <= s.bestScore && (s.best.Some? ==> 0 <= s.bestScore)
  {
    if n > 0 {
      ScanPairsBestAboveSentinel(d, order, lo, up, n - 1);
      ScanPairsStep(d, order, lo, up, n);
    }
  }

  /** The running best score never decreases. */
  lemma ScanPairsGrows(d: map<string, Bucket>, order: seq<string>, lo: int, up: int, n: nat)
    requires 0 < n <= |order| && KeysIn(order, d)
    ensures ScanPairs(d, order, lo, up, n - 1).bestScore <= ScanPairs(d, order, lo, up, n).bestScore
  {
    ScanPairsStep(d, order, lo, up, n);
  }

  /** A candidate at position `j` scores at most the running best after it. */
  lemma {:induction false} ScanPairsBound(d: map<string, Bucket>, order: seq<string>, lo: int, up: int, n: nat, j: nat)
    requires j < n <= |order| && KeysIn(order, d)
    requires ScoreAt(d, order, lo, up, j).Candidate?
    ensures ScoreAt(d, order, lo, up, j).score <= ScanPairs(d, order, lo, up, n).bestScore
    decreases n
  {
    ScanPairsStep(d, order, lo, up, n);
    if j < n - 1 {
      ScanPairsBound(d, order, lo, up, n - 1, j);
      ScanPairsGrows(d, order, lo, up, n);
    }
  }

  /** Every candidate before the running best scores strictly less. */
  lemma ScanPairsEarliest(d: map<string, Bucket>, order: seq<string>, lo: int, up: int, n: nat)
    requires n <= |order| && KeysIn(order, d)
    ensures var s := ScanPairs(d, order, lo, up, n);
      s.best.Some? ==>
        forall j :: 0 <= j < s.best.value && ScoreAt(d, order, lo, up, j).Candidate? ==>
          ScoreAt(d, order, lo, up, j).score < s.bestScore
  {
    var s := ScanPairs(d, order, lo, up, n);
    if s.best.Some? {
      forall j | 0 <= j < s.best.value && ScoreAt(d, order, lo, up, j).Candidate?
        ensures ScoreAt(d, order, lo, up, j).score < s.bestScore
      {
        ScanPairsEarliestAt(d, order, lo, up, n, j);
      }
    }
  }

  /** A candidate at position `j` before the running best scores strictly
      less than it. */
  lemma {:induction false} ScanPairsEarliestAt(d: map<string, Bucket>, order: seq<string>, lo: int, up: int, n: nat, j: nat)
    requires n <= |order| && KeysIn(order, d)
    requires ScanPairs(d, order, lo, up, n).best.Some? && j < ScanPairs(d, order, lo, up, n).best.value
    requires ScoreAt(d, order, lo, up, j).Candidate?
    ensures ScoreAt(d, order, lo, up, j).score < ScanPairs(d, order, lo, up, n).bestScore
  {
    ScanPairsStep(d, order, lo, up, n);
    var prev, v := ScanPairs(d, order, lo, up, n - 1), ScoreAt(d, order, lo, up, n - 1);
    if v.Candidate? && v.score > prev.bestScore {
      ScanPairsBound(d, order, lo, up, n - 1, j);
    } else {
      ScanPairsEarliestAt(d, order, lo, up, n - 1, j);
    }
  }

  /** A running best: a candidate that the scan lets replace the running
      best, because it scores above the best of the buckets before it. */
  predicate IsRunningBest(d: map<string, Bucket>, order: seq<string>, lo: int, up: int, j: nat)
    requires j < |order| && KeysIn(order, d)
  {
    var v := ScoreAt(d, order, lo, up, j);
    v.Candidate? && v.score > ScanPairs(d, order, lo, up, j).bestScore
  }

  /** The running bests among the first `n` buckets, in visiting order. */
  function RunningBests(d: map<string, Bucket>, order: seq<string>, lo: int, up: int, n: nat): (r: seq<nat>)
    requires n <= |order| && KeysIn(order, d)
    ensures forall k :: 0 <= k < |r| ==> r[k] < n && IsRunningBest(d, order, lo, up, r[k])
  {
    if n == 0 then []
    else RunningBests(d, order, lo, up, n - 1) + (if IsRunningBest(d, order, lo, up, n - 1) then [n - 1] else [])
  }

  /** Low-score entries for the buckets at the given visiting positions. */
  function LowScoreLogOf(d: map<string, Bucket>, order: seq<string>, lo: int, up: int, positions: seq<nat>): seq<LogEntry>
    requires KeysIn(order, d)
    requires forall k :: 0 <= k < |positions| ==> positions[k] < |order| && IsRunningBest(d, order, lo, up, positions[k])
  {
    if |positions| == 0 then []
    else
      var last := positions[|positions| - 1];
      assert IsRunningBest(d, order, lo, up, last);
      LowScoreLogOf(d, order, lo, up, positions[..|positions| - 1]) + LowScorePair(d[order[last]])
  }

  /** The exclusion log lines of the first `n` buckets, in visiting order. */
  function Exclusions(d: map<string, Bucket>, order: seq<string>, lo: int, up: int, n: nat): seq<LogEntry>
    requires n <= |order| && KeysIn(order, d)
  {
    if n == 0 then []
    else Exclusions(d, order, lo, up, n - 1) + ExclusionLog(order[n - 1], d[order[n - 1]], lo, up)
  }

  function LowScorePart(log: seq<LogEntry>): seq<LogEntry>
  {
    if |log| == 0 then []
    else LowScorePart(log[..|log| - 1]) + (if log[|log| - 1].code == ReadLowScore then [log[|log| - 1]] else [])
  }

  function OtherPart(log: seq<LogEntry>): seq<LogEntry>
  {
    if |log| == 0 then []
    else OtherPart(log[..|log| - 1]) + (if log[|log| - 1].code != ReadLowScore then [log[|log| - 1]] else [])
  }

  lemma {:induction false} PartsOfConcat(a: seq<LogEntry>, b: seq<LogEntry>)
    ensures LowScorePart(a + b) == LowScorePart(a) + LowScorePart(b)
    ensures OtherPart(a + b) == OtherPart(a) + OtherPart(b)
  {
    if |b| > 0 {
      PartsOfConcat(a, b[..|b| - 1]);
      assert (a + b)[..|a + b| - 1] == a + b[..|b| - 1];
    } else {
      assert a + b == a;
    }
  }

  lemma PartsOfOne(x: LogEntry)
    ensures LowScorePart([x]) == if x.code == ReadLowScore then [x] else []
    ensures OtherPart([x]) == if x.code != ReadLowScore then [x] else []
  {
    assert [x][..0] == [];
  }

  lemma PartsOfTwo(x: LogEntry, y: LogEntry)
    ensures LowScorePart([x, y]) == LowScorePart([x]) + LowScorePart([y])
    ensures OtherPart([x, y]) == OtherPart([x]) + OtherPart([y])
  {
    PartsOfConcat([x], [y]);
    assert [x] + [y] == [x, y];
  }

  /** A log without low-score lines is all in the other part. */
  lemma {:induction false} PartsWithoutLowScore(log: seq<LogEntry>)
    requires forall k :: 0 <= k < |log| ==> log[k].code != ReadLowScore
    ensures LowScorePart(log) == [] && OtherPart(log) == log
  {
    if |log| > 0 {
      var init, last := log[..|log| - 1], log[|log| - 1];
      PartsWithoutLowScore(init);
      assert LowScorePart(log) == LowScorePart(init) + [];
      assert OtherPart(log) == OtherPart(init) + [last];
      assert init + [last] == log;
    }
  }

  lemma ExclusionLogHasNoLowScore(key: string, b: Bucket, lo: int, up: int)
    ensures LowScorePart(ExclusionLog(key, b, lo, up)) == []
    ensures OtherPart(ExclusionLog(key, b, lo, up)) == ExclusionLog(key, b, lo, up)
  {
    var e := ExclusionLog(key, b, lo, up);
    assert forall k :: 0 <= k < |e| ==> e[k].code != ReadLowScore;
    PartsWithoutLowScore(e);
  }

  lemma LowScorePairParts(b: Bucket)
    requires b.mate1.Some? && b.mate2.Some?
    ensures LowScorePart(LowScorePair(b)) == LowScorePair(b)
    ensures OtherPart(LowScorePair(b)) == []
  {
    var e := LowScorePair(b);
    PartsOfOne(e[0]);
    PartsOfOne(e[1]);
    PartsOfTwo(e[0], e[1]);
  }

  /** A running best is exactly a candidate scoring above -1 that strictly
      beats every candidate visited before it. */
  lemma RunningBestMeaning(d: map<string, Bucket>, order: seq<string>, lo: int, up: int, j: nat)
    requires j < |order| && KeysIn(order, d)
    ensures var v := ScoreAt(d, order, lo, up, j);
      IsRunningBest(d, order, lo, up, j) <==>
        && v.Candidate?
        && v.score > -1
        && forall i :: 0 <= i < j && ScoreAt(d, order, lo, up, i).Candidate? ==> ScoreAt(d, order, lo, up, i).score < v.score
  {
    ScanPairsPicksEarliestMaximum(d, order, lo, up, j);
  }

  /** The log of the scan after `n` buckets, split by category: the
      exclusion lines are exactly those of the excluded buckets, in visiting
      order; the low-score lines are exactly both mates of every running best
      except the final one, which is the best bucket. */
  predicate LogSplits(d: map<string, Bucket>, order: seq<string>, lo: int, up: int, n: nat)
    requires n <= |order| && KeysIn(order, d)
  {
    var s, r := ScanPairs(d, order, lo, up, n), RunningBests(d, order, lo, up, n);
    && (s.best.None? <==> |r| == 0)
    && (s.best.Some? ==> s.best.value == r[|r| - 1])
    && OtherPart(s.log) == Exclusions(d, order, lo, up, n)
    && LowScorePart(s.log) == (if |r| == 0 then [] else LowScoreLogOf(d, order, lo, up, r[..|r| - 1]))
  }

  /** A bucket that replaces the running best adds the displaced best's
      low-score lines and becomes the new last running best. */
  lemma LogSplitsOnReplace(d: map<string, Bucket>, order: seq<string>, lo: int, up: int, n: nat)
    requires 0 < n <= |order| && KeysIn(order, d)
    requires LogSplits(d, order, lo, up, n - 1)
    requires IsRunningBest(d, order, lo, up, n - 1)
    ensures LogSplits(d, order, lo, up, n)
  {
    ScanPairsStep(d, order, lo, up, n);
    var prev, s := ScanPairs(d, order, lo, up, n - 1), ScanPairs(d, order, lo, up, n);
    var rp, r := RunningBests(d, order, lo, up, n - 1), RunningBests(d, order, lo, up, n);
    var key := order[n - 1];
    var b := d[key];
    assert r == rp + [n - 1];
    assert r[..|r| - 1] == rp;
    assert ExclusionLog(key, b, lo, up) == [];
    assert Exclusions(d, order, lo, up, n) == Exclusions(d, order, lo, up, n - 1) + [];
    if prev.best.Some? {
      LowScoreOnReplace(d, order, lo, up, n);
    } else {
      assert s.log == prev.log;
      assert |rp| == 0;
    }
  }

  /** Displacing a running best adds its two low-score lines after those
      of the running bests before it. */
  lemma LowScoreOnReplace(d: map<string, Bucket>, order: seq<string>, lo: int, up: int, n: nat)
    requires 0 < n <= |order| && KeysIn(order, d)
    requires LogSplits(d, order, lo, up, n - 1)
    requires IsRunningBest(d, order, lo, up, n - 1)
    requires ScanPairs(d, order, lo, up, n - 1).best.Some?
    ensures var s := ScanPairs(d, order, lo, up, n);
      && LowScorePart(s.log) == LowScoreLogOf(d, order, lo, up, RunningBests(d, order, lo, up, n - 1))
      && OtherPart(s.log) == OtherPart(ScanPairs(d, order, lo, up, n - 1).log)
  {
    ScanPairsStep(d, order, lo, up, n);
    var prev, s := ScanPairs(d, order, lo, up, n - 1), ScanPairs(d, order, lo, up, n);
    var rp := RunningBests(d, order, lo, up, n - 1);
    var best := d[order[prev.best.value]];
    BestIsComplete(d, order, lo, up, n - 1);
    var added := LowScorePair(best);
    assert s.log == prev.log + added;
    PartsOfConcat(prev.log, added);
    LowScorePairParts(best);
    assert rp[|rp| - 1] == prev.best.value;
    LowScoreLogOfLast(d, order, lo, up, rp);
  }

  lemma LowScoreLogOfLast(d: map<string, Bucket>, order: seq<string>, lo: int, up: int, positions: seq<nat>)
    requires KeysIn(order, d) && |positions| > 0
    requires forall k :: 0 <= k < |positions| ==> positions[k] < |order| && IsRunningBest(d, order, lo, up, positions[k])
    ensures var last := positions[|positions| - 1];
      && d[order[last]].mate1.Some? && d[order[last]].mate2.Some?
      && LowScoreLogOf(d, order, lo, up, positions)
           == LowScoreLogOf(d, order, lo, up, positions[..|positions| - 1]) + LowScorePair(d[order[last]])
  {
    assert IsRunningBest(d, order, lo, up, positions[|positions| - 1]);
  }

  /** A candidate that does not beat the running best changes nothing. */
  lemma LogSplitsOnKeep(d: map<string, Bucket>, order: seq<string>, lo: int, up: int, n: nat)
    requires 0 < n <= |order| && KeysIn(order, d)
    requires LogSplits(d, order, lo, up, n - 1)
    requires ScoreAt(d, order, lo, up, n - 1).Candidate?
    requires !IsRunningBest(d, order, lo, up, n - 1)
    ensures LogSplits(d, order, lo, up, n)
  {
    ScanPairsStep(d, order, lo, up, n);
    var key := order[n - 1];
    assert RunningBests(d, order, lo, up, n) == RunningBests(d, order, lo, up, n - 1);
    assert ExclusionLog(key, d[key], lo, up) == [];
    assert Exclusions(d, order, lo, up, n) == Exclusions(d, order, lo, up, n - 1) + [];
  }

  /** An excluded bucket adds only its exclusion lines. */
  lemma LogSplitsOnExclude(d: map<string, Bucket>, order: seq<string>, lo: int, up: int, n: nat)
    requires 0 < n <= |order| && KeysIn(order, d)
    requires LogSplits(d, order, lo, up, n - 1)
    requires !ScoreAt(d, order, lo, up, n - 1).Candidate?
    ensures LogSplits(d, order, lo, up, n)
  {
    ScanPairsStep(d, order, lo, up, n);
    var key := order[n - 1];
    var prev := ScanPairs(d, order, lo, up, n - 1);
    assert RunningBests(d, order, lo, up, n) == RunningBests(d, order, lo, up, n - 1);
    PartsOfConcat(prev.log, ExclusionLog(key, d[key], lo, up));
    ExclusionLogHasNoLowScore(key, d[key], lo, up);
  }

  /** The log of the scan splits by category as `LogSplits` says: a
      candidate that never becomes the running best is not logged at all. */
  lemma {:induction false} ScanPairsLog(d: map<string, Bucket>, order: seq<string>, lo: int, up: int, n: nat)
    requires n <= |order| && KeysIn(order, d)
    ensures LogSplits(d, order, lo, up, n)
  {
    if n > 0 {
      ScanPairsLog(d, order, lo, up, n - 1);
      LogSplitsStep(d, order, lo, up, n);
    }
  }

  /** Visiting one more bucket keeps the split of the log. */
  lemma LogSplitsStep(d: map<string, Bucket>, order: seq<string>, lo: int, up: int, n: nat)
    requires 0 < n <= |order| && KeysIn(order, d)
    requires LogSplits(d, order, lo, up, n - 1)
    ensures LogSplits(d, order, lo, up, n)
  {
    if IsRunningBest(d, order, lo, up, n - 1) {
      LogSplitsOnReplace(d, order, lo, up, n);
    } else if ScoreAt(d, order, lo, up, n - 1).Candidate? {
      LogSplitsOnKeep(d, order, lo, up, n);
    } else {
      LogSplitsOnExclude(d, order, lo, up, n);
    }
  }

  /** A bucket with at least one mate is logged, if at all, by its records. */
  lemma ExclusionLogNamesReads(key: string, b: Bucket, lo: int, up: int)
    requires b.mate1.Some? || b.mate2.Some?
    ensures forall e :: e in ExclusionLog(key, b, lo, up) ==> e.subject.OfRead?
  {
    var e := ExclusionLog(key, b, lo, up);
    match Classify(b, lo, up)
    case MissingMate =>
      assert |e| == 1 && e[0].subject.OfRead?;
    case WrongChrom =>
      assert |e| == 2 && e[0].subject.OfRead? && e[1].subject.OfRead?;
    case WrongSize =>
      assert |e| == 2 && e[0].subject.OfRead? && e[1].subject.OfRead?;
    case Candidate(_) =>
      assert e == [];
  }

  /** When no bucket has both slots empty, the bucket-key form of the error
      line never occurs: every logged line names a record. */
  lemma {:induction false} ScanPairsLogsReads(d: map<string, Bucket>, order: seq<string>, lo: int, up: int, n: nat)
    requires n <= |order| && KeysIn(order, d)
    requires forall k :: k in d ==> d[k].mate1.Some? || d[k].mate2.Some?
    ensures forall e :: e in ScanPairs(d, order, lo, up, n).log ==> e.subject.OfRead?
  {
    if n > 0 {
      ScanPairsLogsReads(d, order, lo, up, n - 1);
      ExclusionLogNamesReads(order[n - 1], d[order[n - 1]], lo, up);
    }
  }

  /** The result of UniquePairedReads: the records written, the log, the
      returned count, and whether every write received a record (`false`
      when the bucket to be written lacks a mate, so that the write fails and
      the pass stops). */
  datatype PairsFlush = PairsFlush(out: seq<Read>, log: seq<LogEntry>, count: nat, ok: bool)

  /** After the scan, if some pair won, the two slots of the bucket visited
      LAST are written (rmdup.py:178-181), not those of the best bucket. */
  function FlushPairs(d: map<string, Bucket>, order: seq<string>, lo: int, up: int): PairsFlush
    requires IsOrderOf(order, d)
  {
    if |d| <= 0 then PairsFlush([], [], 0, true)
    else WriteLast(ScanPairs(d, order, lo, up, |order|), d[order[|order| - 1]])
  }

  /** The end of the scan `s` with `last` the bucket visited last: nothing
      is written when no pair won; otherwise the slots of `last` are
      written in order, and an empty slot fails the write. */
  function WriteLast(s: PairScan, last: Bucket): (f: PairsFlush)
    ensures f.log == s.log
    ensures f.ok <==> s.best.None? || (last.mate1.Some? && last.mate2.Some?)
    ensures f.count == 1 <==> s.best.Some? && last.mate1.Some? && last.mate2.Some?
    ensures f.count == 1 ==> f.out == [last.mate1.value, last.mate2.value]
  {
    if s.best.None? then PairsFlush([], s.log, 0, true)
    else if last.mate1.None? then PairsFlush([], s.log, 0, false)
    else if last.mate2.None? then PairsFlush([last.mate1.value], s.log, 0, false)
    else PairsFlush([last.mate1.value, last.mate2.value], s.log, 1, true)
  }

  /** Some candidate among all buckets scores above -1. */
  predicate SomePairWins(d: map<string, Bucket>, order: seq<string>, lo: int, up: int)
    requires KeysIn(order, d)
  {
    exists j :: 0 <= j < |order| && ScoreAt(d, order, lo, up, j).Candidate? && ScoreAt(d, order, lo, up, j).score > -1
  }

  /** What the flush writes and returns: one pair (and count 1) exactly when
      some candidate wins and the last visited bucket has both mates; nothing
      when no candidate wins; and a failed write when a candidate wins but the
      last visited bucket lacks a mate. */
  lemma FlushPairsOutcome(d: map<string, Bucket>, order: seq<string>, lo: int, up: int)
    requires IsOrderOf(order, d)
    ensures var f := FlushPairs(d, order, lo, up);
      && f.log == ScanPairs(d, order, lo, up, |order|).log
      && (f.count == 1 <==>
            SomePairWins(d, order, lo, up) && d[order[|order| - 1]].mate1.Some? && d[order[|order| - 1]].mate2.Some?)
      && (f.count == 1 ==> f.ok && f.out == [d[order[|order| - 1]].mate1.value, d[order[|order| - 1]].mate2.value])
      && (!SomePairWins(d, order, lo, up) ==> f.ok && f.out == [] && f.count == 0)
      && (!f.ok ==> SomePairWins(d, order, lo, up) && f.count == 0 && |f.out| <= 1)
      && (f.ok ==> |f.out| == 2 * f.count)
  {
    ScanPairsPicksEarliestMaximum(d, order, lo, up, |order|);
    var s := ScanPairs(d, order, lo, up, |order|);
    if s.best.Some? {
      assert ScoreAt(d, order, lo, up, s.best.value).Candidate?;
    }
  }

  /** When the best bucket happens to be the last one visited, the pair
      written is the best pair. */
  lemma WrittenPairIsBestWhenLast(d: map<string, Bucket>, order: seq<string>, lo: int, up: int)
    requires IsOrderOf(order, d)
    requires ScanPairs(d, order, lo, up, |order|).best == Some(|order| - 1)
    ensures var f, best := FlushPairs(d, order, lo, up), d[order[|order| - 1]];
      && f.ok && f.count == 1
      && Classify(best, lo, up).Candidate?
      && f.out == [best.mate1.value, best.mate2.value]
  {
  }

  /** When the last visited bucket is complete but excluded (for instance
      its mates lie on different references) while an earlier candidate won,
      the records written are those of the excluded bucket, which are also
      logged under its exclusion category. */
  lemma ExcludedLastBucketIsWritten(d: map<string, Bucket>, order: seq<string>, lo: int, up: int)
    requires IsOrderOf(order, d)
    requires SomePairWins(d, order, lo, up)
    requires var last := d[order[|order| - 1]];
      last.mate1.Some? && last.mate2.Some? && !Classify(last, lo, up).Candidate?
    ensures var f, last := FlushPairs(d, order, lo, up), d[order[|order| - 1]];
      && f.count == 1
      && f.out == [last.mate1.value, last.mate2.value]
      && forall e :: e in ExclusionLog(order[|order| - 1], last, lo, up) ==> e in f.log
  {
    var n := |order|;
    SomePairWinsMeansBest(d, order, lo, up);
    FlushPairsWritesLast(d, order, lo, up);
    ScanPairsStep(d, order, lo, up, n);
  }

  /** A winning candidate leaves the scan with a best bucket. */
  lemma SomePairWinsMeansBest(d: map<string, Bucket>, order: seq<string>, lo: int, up: int)
    requires KeysIn(order, d)
    requires SomePairWins(d, order, lo, up)
    ensures ScanPairs(d, order, lo, up, |order|).best.Some?
  {
    var j :| 0 <= j < |order| && ScoreAt(d, order, lo, up, j).Candidate? && ScoreAt(d, order, lo, up, j).score > -1;
    ScanPairsPicksEarliestMaximum(d, order, lo, up, |order|);
  }

  /** With a best bucket and a complete last bucket, the flush writes the
      last bucket's two records and logs what the scan logged. */
  lemma FlushPairsWritesLast(d: map<string, Bucket>, order: seq<string>, lo: int, up: int)
    requires IsOrderOf(order, d) && |order| > 0
    requires ScanPairs(d, order, lo, up, |order|).best.Some?
    requires d[order[|order| - 1]].mate1.Some? && d[order[|order| - 1]].mate2.Some?
    ensures var f, last := FlushPairs(d, order, lo, up), d[order[|order| - 1]];
      f == PairsFlush([last.mate1.value, last.mate2.value], ScanPairs(d, order, lo, up, |order|).log, 1, true)
  {
  }

  /** Pair selection never logs the reserved "more than one best" category. */
  lemma {:induction false} ScanPairsCodes(d: map<string, Bucket>, order: seq<string>, lo: int, up: int, n: nat)
    requires n <= |order| && KeysIn(order, d)
    ensures forall e :: e in ScanPairs(d, order, lo, up, n).log ==>
              e.code in {ReadError, ReadLowScore, ReadWrongChrom, ReadWrongSize}
  {
    if n > 0 {
      ScanPairsCodes(d, order, lo, up, n - 1);
    }
  }

  /** The three filters of UniquePairedReads for one bucket, in the
      source's order, each logging the records it excludes. */
  method FilterBucket(key: string, pair: Bucket, lowerLimit: int, upperLimit: int, sink: Sink)
    returns (candidate: bool)
    modifies sink
    ensures candidate == Classify(pair, lowerLimit, upperLimit).Candidate?
    ensures sink.log == old(sink.log) + ExclusionLog(key, pair, lowerLimit, upperLimit)
    ensures sink.out == old(sink.out)
  {
    candidate := false;
    if pair.mate1.None? && pair.mate2.None? {
      sink.Log(ReadError, OfKey(key));
    } else if pair.mate1.None? && pair.mate2.Some? {
      sink.Log(ReadError, OfRead(pair.mate2.value));
    } else if pair.mate1.Some? && pair.mate2.None? {
      sink.Log(ReadError, OfRead(pair.mate1.value));
    } else if pair.mate1.value.refName != pair.mate2.value.refName {
      sink.Log(ReadWrongChrom, OfRead(pair.mate1.value));
      sink.Log(ReadWrongChrom, OfRead(pair.mate2.value));
    } else {
      var pairLen := ReadPairLen(pair.mate1, pair.mate2);
      if pairLen < lowerLimit || pairLen > upperLimit {
        sink.Log(ReadWrongSize, OfRead(pair.mate1.value));
        sink.Log(ReadWrongSize, OfRead(pair.mate2.value));
      } else {
        candidate := true;
      }
    }
  }

  /** Writing both slots of a bucket, in slot order; writing an empty slot
      fails and stops the writes. */
  method WritePair(pair: Bucket, sink: Sink) returns (ok: bool)
    modifies sink
    ensures ok == (pair.mate1.Some? && pair.mate2.Some?)
    ensures sink.out == old(sink.out) +
      (if pair.mate1.None? then [] else if pair.mate2.None? then [pair.mate1.value]
       else [pair.mate1.value, pair.mate2.value])
    ensures sink.log == old(sink.log)
  {
    if pair.mate1.None? {
      return false;
    }
    sink.Write(pair.mate1.value);
    if pair.mate2.None? {
      return false;
    }
    sink.Write(pair.mate2.value);
    return true;
  }

  /** Scoring one candidate against the running best: it replaces the best
      only on a strictly greater score, and then the displaced best, if any,
      is logged as low score. */
  method ScorePair(pair: Bucket, bestScore: int, bestPair: Option<Bucket>, sink: Sink)
    returns (newScore: int, newPair: Option<Bucket>, replaced: bool)
    requires pair.mate1.Some? && pair.mate2.Some?
    requires bestPair.Some? ==> bestPair.value.mate1.Some? && bestPair.value.mate2.Some?
    modifies sink
    ensures replaced == (PairScore(pair.mate1.value.cigar, pair.mate2.value.cigar) > bestScore)
    ensures replaced ==> newScore == PairScore(pair.mate1.value.cigar, pair.mate2.value.cigar) && newPair == Some(pair)
    ensures replaced ==> sink.log == old(sink.log) + (if bestPair.Some? then LowScorePair(bestPair.value) else [])
    ensures !replaced ==> newScore == bestScore && newPair == bestPair && sink.log == old(sink.log)
    ensures sink.out == old(sink.out)
  {
    newScore, newPair, replaced := bestScore, bestPair, false;
    var score1 := ScoreByCigar(pair.mate1.value.cigar);
    var score2 := ScoreByCigar(pair.mate2.value.cigar);
    var score := score1 + score2;
    if score > bestScore {
      newScore := score;
      if bestPair.Some? {
        sink.Log(ReadLowScore, OfRead(bestPair.value.mate1.value));
        sink.Log(ReadLowScore, OfRead(bestPair.value.mate2.value));
      }
      newPair := Some(pair);
      replaced := true;
    }
  }

  /** One iteration of the bucket loop: the filters, then the comparison
      with the running best; the scan advances by one bucket. */
  method VisitBucket(d: map<string, Bucket>, order: seq<string>, lo: int, up: int, i: nat,
                     bestScore: int, bestPair: Option<Bucket>, ghost bestAt: Option<nat>,
                     ghost base: seq<LogEntry>, sink: Sink)
    returns (newScore: int, newPair: Option<Bucket>, ghost newAt: Option<nat>)
    requires i < |order| && KeysIn(order, d)
    requires var s := ScanPairs(d, order, lo, up, i);
      && bestScore == s.bestScore && bestAt == s.best
      && bestPair.Some? == s.best.Some?
      && (s.best.Some? ==> bestPair.value == d[order[s.best.value]])
      && sink.log == base + s.log
    modifies sink
    ensures var s := ScanPairs(d, order, lo, up, i + 1);
      && newScore == s.bestScore && newAt == s.best
      && newPair.Some? == s.best.Some?
      && (s.best.Some? ==> newPair.value == d[order[s.best.value]])
      && sink.log == base + s.log
    ensures sink.out == old(sink.out)
  {
    ghost var prev := ScanPairs(d, order, lo, up, i);
    ScanPairsStep(d, order, lo, up, i + 1);
    BestIsComplete(d, order, lo, up, i);
    var key := order[i];
    var pair := d[key];
    newScore, newPair, newAt := bestScore, bestPair, bestAt;
    var candidate := FilterBucket(key, pair, lo, up, sink);
    if candidate {
      var replaced: bool;
      newScore, newPair, replaced := ScorePair(pair, bestScore, bestPair, sink);
      if replaced {
        newAt := Some(i);
        SeqAssoc(base, prev.log, if bestPair.Some? then LowScorePair(bestPair.value) else []);
      }
    } else {
      SeqAssoc(base, prev.log, ExclusionLog(key, pair, lo, up));
    }
  }

  /** The running best bucket holds both mates. */
  lemma BestIsComplete(d: map<string, Bucket>, order: seq<string>, lo: int, up: int, n: nat)
    requires n <= |order| && KeysIn(order, d)
    ensures var s := ScanPairs(d, order, lo, up, n);
      s.best.Some? ==> d[order[s.best.value]].mate1.Some? && d[order[s.best.value]].mate2.Some?
  {
  }

  /** UniquePairedReads: visit the buckets; log and skip those the filters
      exclude; keep a running best of the rest, logging only a displaced
      best; then write the slots of the last visited bucket if some pair
      won. */
  method UniquePairedReads(dictPaired: map<string, Bucket>, order: seq<string>, lowerLimit: int, upperLimit: int, sink: Sink)
    returns (pairCount: nat, ok: bool)
    requires IsOrderOf(order, dictPaired)
    modifies sink
    ensures var f := FlushPairs(dictPaired, order, lowerLimit, upperLimit);
      && sink.out == old(sink.out) + f.out
      && sink.log == old(sink.log) + f.log
      && pairCount == f.count
      && ok == f.ok
  {
    var bestScore := -1;
    var bestPair: Option<Bucket> := None;
    ghost var bestAt: Option<nat> := None;
    pairCount := 0;
    ok := true;
    if |dictPaired| <= 0 {
      return 0, true;
    }
    var pair := EmptyBucket;
    var i := 0;
    ghost var scan := ScanPairs(dictPaired, order, lowerLimit, upperLimit, 0);
    while i < |order|
      invariant 0 <= i <= |order|
      invariant i > 0 ==> pair == dictPaired[order[i - 1]]
      invariant sink.out == old(sink.out)
      invariant scan == ScanPairs(dictPaired, order, lowerLimit, upperLimit, i)
      invariant bestScore == scan.bestScore && bestAt == scan.best
      invariant bestPair.Some? == scan.best.Some?
      invariant scan.best.Some? ==> bestPair.value == dictPaired[order[scan.best.value]]
      invariant sink.log == old(sink.log) + scan.log
    {
      pair := dictPaired[order[i]];
      ghost var next := ScanPairs(dictPaired, order, lowerLimit, upperLimit, i + 1);
      bestScore, bestPair, bestAt := VisitBucket(dictPaired, order, lowerLimit, upperLimit, i, bestScore, bestPair, bestAt, old(sink.log), sink);
      scan := next;
      i := i + 1;
    }
    if bestPair.Some? {
      ok := WritePair(pair, sink);
      pairCount := if ok then 1 else 0;
    }
  }
}
