/** Selection of the best single read per single-read key
    (UniqueSingleReads, rmdup.py:74-104). */
module SingleSelection {
  import opened Records
  import opened Scoring

  function Score(r: Read): int
  {
    CigarScore(r.cigar)
  }

  function LowScoreEntry(r: Read): LogEntry
  {
    LogEntry(ReadLowScore, OfRead(r))
  }

  /** The running state of the scan over one list of alignments: the best score
      so far (initially -1), the position of the best read, and what has been
      logged. */
  datatype SingleScan = SingleScan(bestScore: int, best: Option<nat>, log: seq<LogEntry>)

  /** The scan after the first `n` alignments: a read replaces the running best
      only on a strictly greater score; the displaced best, or the read
      itself when it does not win, is logged as low score. */
  function ScanSingles(alignments: seq<Read>, n: nat): (s: SingleScan)
    requires n <= |alignments|
    ensures s.best.None? ==> s.bestScore == -1
    ensures s.best.Some? ==> s.best.value < n && s.bestScore == Score(alignments[s.best.value])
  {
    if n == 0 then SingleScan(-1, None, [])
    else
      var prev := ScanSingles(alignments, n - 1);
      var score := Score(alignments[n - 1]);
      if score > prev.bestScore then
        SingleScan(score, Some(n - 1),
          prev.log + (if prev.best.Some? then [LowScoreEntry(alignments[prev.best.value])] else []))
      else
        SingleScan(prev.bestScore, prev.best, prev.log + [LowScoreEntry(alignments[n - 1])])
  }

  /** The read a list keeps, if any. */
  function BestOf(alignments: seq<Read>): (r: Option<Read>)
    ensures r.Some? ==> r.value in alignments
  {
    var s := ScanSingles(alignments, |alignments|);
    if s.best.Some? then Some(alignments[s.best.value]) else None
  }

  /** The kept read is the earliest one of maximal score, and only a read
      scoring at least 0 is ever kept. */
  lemma {:induction false} ScanSinglesPicksEarliestMaximum(alignments: seq<Read>, n: nat)
    requires n <= |alignments|
    ensures var s := ScanSingles(alignments, n);
      && (s.best.None? <==> forall i :: 0 <= i < n ==> Score(alignments[i]) < 0)
      && (s.best.Some? ==>
            && 0 <= s.bestScore
            && (forall i :: 0 <= i < n ==> Score(alignments[i]) <= s.bestScore)
            && (forall i :: 0 <= i < s.best.value ==> Score(alignments[i]) < s.bestScore))
  {
    if n > 0 {
      ScanSinglesPicksEarliestMaximum(alignments, n - 1);
      var prev, s := ScanSingles(alignments, n - 1), ScanSingles(alignments, n);
      if Score(alignments[n - 1]) > prev.bestScore {
        assert s.best == Some(n - 1) && s.bestScore == Score(alignments[n - 1]);
      } else {
        assert s.best == prev.best && s.bestScore == prev.bestScore;
      }
    }
  }

  /** Every low-score entry of one list, in list order. */
  function AllLowScoreEntries(alignments: seq<Read>, n: nat): seq<LogEntry>
    requires n <= |alignments|
  {
    if n == 0 then [] else AllLowScoreEntries(alignments, n - 1) + [LowScoreEntry(alignments[n - 1])]
  }

  function KeptEntry(alignments: seq<Read>, s: SingleScan): multiset<LogEntry>
    requires s.best.Some? ==> s.best.value < |alignments|
  {
    if s.best.Some? then multiset{LowScoreEntry(alignments[s.best.value])} else multiset{}
  }

  /** One step of the scan adds the new read's entry to what is logged or
      kept. */
  lemma ScanSinglesStep(alignments: seq<Read>, n: nat)
    requires 0 < n <= |alignments|
    ensures var prev, s := ScanSingles(alignments, n - 1), ScanSingles(alignments, n);
      multiset(s.log) + KeptEntry(alignments, s)
        == multiset(prev.log) + KeptEntry(alignments, prev) + multiset{LowScoreEntry(alignments[n - 1])}
  {
    var prev := ScanSingles(alignments, n - 1);
    if Score(alignments[n - 1]) > prev.bestScore {
      assert multiset(ScanSingles(alignments, n).log) == multiset(prev.log) + KeptEntry(alignments, prev);
    }
  }

  /** Every read of the list except the kept one is logged exactly once, as
      low score. */
  lemma {:induction false} ScanSinglesLogsAllOthers(alignments: seq<Read>, n: nat)
    requires n <= |alignments|
    ensures var s := ScanSingles(alignments, n);
      multiset(s.log) + KeptEntry(alignments, s) == multiset(AllLowScoreEntries(alignments, n))
  {
    if n > 0 {
      var prev, s := ScanSingles(alignments, n - 1), ScanSingles(alignments, n);
      var e := LowScoreEntry(alignments[n - 1]);
      var before := AllLowScoreEntries(alignments, n - 1);
      ScanSinglesLogsAllOthers(alignments, n - 1);
      assert multiset(prev.log) + KeptEntry(alignments, prev) == multiset(before);
      ScanSinglesStep(alignments, n);
      assert multiset(s.log) + KeptEntry(alignments, s) == multiset(before) + multiset{e};
      assert AllLowScoreEntries(alignments, n) == before + [e];
    }
  }

  /** Single-read selection logs nothing but low-score entries, each naming
      a record. */
  lemma {:induction false} ScanSinglesLogsLowScoreOnly(alignments: seq<Read>, n: nat)
    requires n <= |alignments|
    ensures forall e :: e in ScanSingles(alignments, n).log ==> e.code == ReadLowScore && e.subject.OfRead?
  {
    if n > 0 {
      ScanSinglesLogsLowScoreOnly(alignments, n - 1);
    }
  }

  /** The result of resolving a whole dictionary of single-read lists in a
      given visiting order: the records written, the log, and the count of
      keys that wrote a record. */
  datatype SinglesFlush = SinglesFlush(out: seq<Read>, log: seq<LogEntry>, count: nat)

  /** The effect of visiting the first `n` keys of `order`. */
  function FlushSingles(d: map<string, seq<Read>>, order: seq<string>, n: nat): (f: SinglesFlush)
    requires n <= |order| && KeysIn(order, d)
    ensures f.count == |f.out| <= n
  {
    if n == 0 then SinglesFlush([], [], 0)
    else
      var prev := FlushSingles(d, order, n - 1);
      var alignments := d[order[n - 1]];
      var s := ScanSingles(alignments, |alignments|);
      var kept := BestOf(alignments);
      SinglesFlush(
        prev.out + (if kept.Some? then [kept.value] else []),
        prev.log + s.log,
        prev.count + (if kept.Some? then 1 else 0))
  }

  /** A list that can keep a read: one of its alignments scores at least 0. */
  predicate HasCandidate(alignments: seq<Read>)
  {
    exists i :: 0 <= i < |alignments| && Score(alignments[i]) >= 0
  }

  /** Number of keys among the first `n` whose list has a candidate. */
  function KeysWithCandidate(d: map<string, seq<Read>>, order: seq<string>, n: nat): nat
    requires n <= |order| && KeysIn(order, d)
  {
    if n == 0 then 0
    else KeysWithCandidate(d, order, n - 1) + (if HasCandidate(d[order[n - 1]]) then 1 else 0)
  }

  /** The count is the number of keys with a candidate, and every written
      record scores at least 0 and comes from a visited list. */
  lemma {:induction false} FlushSinglesCountsWinners(d: map<string, seq<Read>>, order: seq<string>, n: nat)
    requires n <= |order| && KeysIn(order, d)
    ensures FlushSingles(d, order, n).count == KeysWithCandidate(d, order, n)
    ensures forall r :: r in FlushSingles(d, order, n).out ==>
              0 <= Score(r) && exists j :: 0 <= j < n && r in d[order[j]]
  {
    if n > 0 {
      FlushSinglesCountsWinners(d, order, n - 1);
      var alignments := d[order[n - 1]];
      ScanSinglesPicksEarliestMaximum(alignments, |alignments|);
      var s := ScanSingles(alignments, |alignments|);
      if s.best.Some? {
        assert HasCandidate(alignments);
      } else {
        assert !HasCandidate(alignments);
      }
      var prev := FlushSingles(d, order, n - 1);
      forall r | r in FlushSingles(d, order, n).out
        ensures 0 <= Score(r) && exists j :: 0 <= j < n && r in d[order[j]]
      {
        if r in prev.out {
          var j :| 0 <= j < n - 1 && r in d[order[j]];
        } else {
          assert r == alignments[s.best.value];
        }
      }
    }
  }

  /** Only low-score entries, each naming a record, are ever logged by
      single-read selection. */
  lemma {:induction false} FlushSinglesLogsLowScoreOnly(d: map<string, seq<Read>>, order: seq<string>, n: nat)
    requires n <= |order| && KeysIn(order, d)
    ensures forall e :: e in FlushSingles(d, order, n).log ==> e.code == ReadLowScore && e.subject.OfRead?
  {
    if n > 0 {
      FlushSinglesLogsLowScoreOnly(d, order, n - 1);
      var alignments := d[order[n - 1]];
      ScanSinglesLogsLowScoreOnly(alignments, |alignments|);
    }
  }

  /** The inner loop of UniqueSingleReads over the alignments of one key:
      a running best score (initially -1) and best read; the displaced best,
      or a read that does not beat it, is logged as low score. */
  method ResolveSingle(alignments: seq<Read>, sink: Sink) returns (bestRead: Option<Read>)
    modifies sink
    ensures bestRead == BestOf(alignments)
    ensures sink.log == old(sink.log) + ScanSingles(alignments, |alignments|).log
    ensures sink.out == old(sink.out)
  {
    var bestScore := -1;
    bestRead := None;
    ghost var bestAt: Option<nat> := None;
    var j := 0;
    while j < |alignments|
      invariant 0 <= j <= |alignments|
      invariant sink.out == old(sink.out)
      invariant var s := ScanSingles(alignments, j);
        && bestScore == s.bestScore
        && bestAt == s.best
        && bestRead == (if s.best.Some? then Some(alignments[s.best.value]) else None)
        && sink.log == old(sink.log) + s.log
    {
      var read := alignments[j];
      var score := ScoreByCigar(read.cigar);
      if score > bestScore {
        bestScore := score;
        if bestRead.Some? {
          sink.Log(ReadLowScore, OfRead(bestRead.value));
        }
        bestRead := Some(read);
        bestAt := Some(j);
      } else {
        sink.Log(ReadLowScore, OfRead(read));
      }
      j := j + 1;
    }
  }

  /** One turn of the outer loop of UniqueSingleReads: resolve the key at
      position `i` and write its winner, if any. */
  method VisitKey(d: map<string, seq<Read>>, order: seq<string>, i: nat, count: nat,
                  ghost outBase: seq<Read>, ghost logBase: seq<LogEntry>, sink: Sink)
    returns (newCount: nat)
    requires i < |order| && KeysIn(order, d)
    requires var f := FlushSingles(d, order, i);
      sink.out == outBase + f.out && sink.log == logBase + f.log && count == f.count
    modifies sink
    ensures var f := FlushSingles(d, order, i + 1);
      sink.out == outBase + f.out && sink.log == logBase + f.log && newCount == f.count
  {
    var bestRead := ResolveSingle(d[order[i]], sink);
    newCount := count;
    if bestRead.Some? {
      sink.Write(bestRead.value);
      newCount := count + 1;
    }
  }

  /** UniqueSingleReads: resolve every key in the visiting order and write
      each key's winner. */
  method UniqueSingleReads(dictSingle: map<string, seq<Read>>, order: seq<string>, sink: Sink)
    returns (count: nat)
    requires IsOrderOf(order, dictSingle)
    modifies sink
    ensures var f := FlushSingles(dictSingle, order, |order|);
      && sink.out == old(sink.out) + f.out
      && sink.log == old(sink.log) + f.log
      && count == f.count
    ensures count <= |dictSingle|
  {
    count := 0;
    if |dictSingle| <= 0 {
      return 0;
    }
    var i := 0;
    while i < |order|
      invariant 0 <= i <= |order|
      invariant var f := FlushSingles(dictSingle, order, i);
        && sink.out == old(sink.out) + f.out
        && sink.log == old(sink.log) + f.log
        && count == f.count
    {
      count := VisitKey(dictSingle, order, i, count, old(sink.out), old(sink.log), sink);
      i := i + 1;
    }
  }
}
