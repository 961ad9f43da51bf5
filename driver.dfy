/** The record loop of rmdup (rmdup.py:261-329): records are filed into pair
    buckets and single-read lists of the current template group, and both
    dictionaries are resolved and cleared whenever the group key changes. */
module Driver {
  import opened Records
  import opened Scoring
  import opened Geometry
  import opened SingleSelection
  import opened PairSelection

  /** The categories the engine ever writes; the "more than one best"
      category is reserved and never among them. */
  const EmittedCodes: set<char> := {ReadError, ReadLowScore, ReadWrongChrom, ReadWrongSize}

  /** The "more than one best" category is not among the emitted ones. */
  lemma MultiBestNeverEmitted()
    ensures ReadMultiBest !in EmittedCodes
  {
  }

  /** The mate slot of a properly paired read: 0 for first in pair (which
      wins when both flags are set), 1 for second in pair, none otherwise. */
  function SlotOf(read: Read): (t: Option<nat>)
    ensures t.Some? <==> read.isRead1 || read.isRead2
    ensures t.Some? ==> t.value <= 1 && (t.value == 0 <==> read.isRead1)
  {
    if read.isRead1 then Some(0) else if read.isRead2 then Some(1) else None
  }

  function SlotFilled(b: Bucket, t: nat): bool
  {
    if t == 0 then b.mate1.Some? else b.mate2.Some?
  }

  function Fill(b: Bucket, t: nat, read: Read): Bucket
  {
    if t == 0 then b.(mate1 := Some(read)) else b.(mate2 := Some(read))
  }

  /** The bucket under `key`, or the fresh `[None, None, -1]` a new key gets. */
  function BucketAt(paired: map<string, Bucket>, key: string): Bucket
  {
    if key in paired then paired[key] else EmptyBucket
  }

  function ListAt(single: map<string, seq<Read>>, key: string): seq<Read>
  {
    if key in single then single[key] else []
  }

  /** The key of a single read: group key, a colon, the read number. */
  function SingleKey(groupKey: string, num: string): string
  {
    groupKey + ":" + num
  }

  /** The dictionaries after filing one record, and what it logged. */
  datatype Stored = Stored(paired: map<string, Bucket>, single: map<string, seq<Read>>, log: seq<LogEntry>)

  /** Filing one record of the group `groupKey` (rmdup.py:279-316): a
      properly paired read goes to its mate slot unless that slot is taken or
      it has no mate flag (both logged as errors); any other read is
      appended to the list of its single key. `None` when the number pattern
      does not match the read's name, which stops the pass. */
  function Store(paired: map<string, Bucket>, single: map<string, seq<Read>>, groupKey: string,
                 read: Read, readNum: string -> Option<string>): Option<Stored>
  {
    if read.isProperPair then
      Some(StorePaired(paired, single, PairKey(groupKey, read), read))
    else
      match readNum(read.qname)
      case None => None
      case Some(num) => Some(StoreSingle(paired, single, SingleKey(groupKey, num), read))
  }

  /** Filing a properly paired record under the bucket key `key`. */
  function StorePaired(paired: map<string, Bucket>, single: map<string, seq<Read>>, key: string, read: Read): Stored
  {
    match SlotOf(read)
    case None => Stored(paired, single, [LogEntry(ReadError, OfRead(read))])
    case Some(t) =>
      if SlotFilled(BucketAt(paired, key), t) then
        Stored(paired, single, [LogEntry(ReadError, OfRead(read))])
      else
        Stored(paired[key := Fill(BucketAt(paired, key), t, read)], single, [])
  }

  /** Filing any other record under the single key `key`. */
  function StoreSingle(paired: map<string, Bucket>, single: map<string, seq<Read>>, key: string, read: Read): Stored
  {
    Stored(paired, single[key := ListAt(single, key) + [read]], [])
  }

  /** Filing fails exactly on a read that is not properly paired and whose
      name the number pattern does not match. */
  lemma StoreFailsOnlyOnNumber(paired: map<string, Bucket>, single: map<string, seq<Read>>, groupKey: string,
                               read: Read, readNum: string -> Option<string>)
    ensures Store(paired, single, groupKey, read, readNum).None? <==> !read.isProperPair && readNum(read.qname).None?
  {
  }

  /** A record of group `groupKey`. */
  predicate InGroup(cfg: Config, groupKey: string, read: Read)
  {
    cfg.readKey(read.qname) == Some(groupKey)
  }

  /** The shape of a bucket as filing builds it: at least one slot taken,
      the placeholder score -1, slot 0 holding a first-in-pair read and slot
      1 a second-in-pair read that is not first in pair, both properly
      paired. */
  predicate BucketShape(b: Bucket)
  {
    && (b.mate1.Some? || b.mate2.Some?)
    && b.score == -1
    && (b.mate1.Some? ==> b.mate1.value.isRead1 && b.mate1.value.isProperPair)
    && (b.mate2.Some? ==> !b.mate2.value.isRead1 && b.mate2.value.isRead2 && b.mate2.value.isProperPair)
  }

  /** Filing logs at most one line, and only as an error. */
  lemma StoreLogsErrorsOnly(paired: map<string, Bucket>, single: map<string, seq<Read>>, groupKey: string,
                            read: Read, readNum: string -> Option<string>)
    requires Store(paired, single, groupKey, read, readNum).Some?
    ensures var st := Store(paired, single, groupKey, read, readNum).value;
      |st.log| <= 1 && forall e :: e in st.log ==> e == LogEntry(ReadError, OfRead(read))
  {
  }

  /** A record for a mate slot that is already taken is logged as an error
      and the record already there is kept; nothing else changes. */
  lemma StoreFirstSeenWins(paired: map<string, Bucket>, single: map<string, seq<Read>>, groupKey: string,
                           read: Read, readNum: string -> Option<string>)
    requires read.isProperPair && SlotOf(read).Some?
    requires SlotFilled(BucketAt(paired, PairKey(groupKey, read)), SlotOf(read).value)
    ensures Store(paired, single, groupKey, read, readNum) ==
      Some(Stored(paired, single, [LogEntry(ReadError, OfRead(read))]))
  {
  }

  /** A properly paired record with neither mate flag is logged as an error
      and not filed. */
  lemma StoreUnflaggedIsError(paired: map<string, Bucket>, single: map<string, seq<Read>>, groupKey: string,
                              read: Read, readNum: string -> Option<string>)
    requires read.isProperPair && !read.isRead1 && !read.isRead2
    ensures Store(paired, single, groupKey, read, readNum) ==
      Some(Stored(paired, single, [LogEntry(ReadError, OfRead(read))]))
  {
  }

  /** A first-in-pair record lands in slot 0 and any other flagged record in
      slot 1 of its pair key's bucket when that slot is free; the other slot
      and every other bucket stay as they were. */
  lemma StoreFillsFreeSlot(paired: map<string, Bucket>, single: map<string, seq<Read>>, groupKey: string,
                           read: Read, readNum: string -> Option<string>)
    requires read.isProperPair && (read.isRead1 || read.isRead2)
    requires var b := BucketAt(paired, PairKey(groupKey, read));
      if read.isRead1 then b.mate1.None? else b.mate2.None?
    ensures var st, key, b := Store(paired, single, groupKey, read, readNum), PairKey(groupKey, read), BucketAt(paired, PairKey(groupKey, read));
      && st.Some? && st.value.log == [] && st.value.single == single
      && key in st.value.paired
      && (read.isRead1 ==> st.value.paired[key] == Bucket(Some(read), b.mate2, b.score))
      && (!read.isRead1 ==> st.value.paired[key] == Bucket(b.mate1, Some(read), b.score))
      && forall k :: k in paired && k != key ==> k in st.value.paired && st.value.paired[k] == paired[k]
  {
    var key, b := PairKey(groupKey, read), BucketAt(paired, PairKey(groupKey, read));
    if read.isRead1 {
      assert SlotOf(read) == Some(0);
      assert StorePaired(paired, single, key, read) == Stored(paired[key := Bucket(Some(read), b.mate2, b.score)], single, []);
    } else {
      assert SlotOf(read) == Some(1);
      assert StorePaired(paired, single, key, read) == Stored(paired[key := Bucket(b.mate1, Some(read), b.score)], single, []);
    }
  }

  /** A read that is not properly paired is appended at the end of its
      single key's list, so each list keeps arrival order. */
  lemma StoreAppendsSingle(paired: map<string, Bucket>, single: map<string, seq<Read>>, groupKey: string,
                           read: Read, readNum: string -> Option<string>)
    requires !read.isProperPair
    ensures readNum(read.qname).None? <==> Store(paired, single, groupKey, read, readNum).None?
    ensures readNum(read.qname).Some? ==>
      var st, key := Store(paired, single, groupKey, read, readNum).value, SingleKey(groupKey, readNum(read.qname).value);
      && st.paired == paired && st.log == []
      && key in st.single && st.single[key] == ListAt(single, key) + [read]
      && forall k :: k in single && k != key ==> k in st.single && st.single[k] == single[k]
  {
  }

  /** Two mates that see each other's positions meet in one bucket, whichever
      arrives first: filing both into a group without their key gives the
      bucket [mate 1, mate 2, -1]. */
  lemma MatesMeetInOneBucket(paired: map<string, Bucket>, single: map<string, seq<Read>>, groupKey: string,
                             r1: Read, r2: Read, readNum: string -> Option<string>)
    requires r1.isProperPair && r1.isRead1 && r2.isProperPair && !r2.isRead1 && r2.isRead2
    requires r1.mateRefName == r2.refName && r1.matePos == r2.pos
    requires r2.mateRefName == r1.refName && r2.matePos == r1.pos
    requires PairKey(groupKey, r1) !in paired
    ensures var key := PairKey(groupKey, r1);
      var a := Store(paired, single, groupKey, r1, readNum).value;
      var b := Store(a.paired, a.single, groupKey, r2, readNum).value;
      key in b.paired && b.paired[key] == Bucket(Some(r1), Some(r2), -1) && b.log == []
    ensures var key := PairKey(groupKey, r1);
      var a := Store(paired, single, groupKey, r2, readNum).value;
      var b := Store(a.paired, a.single, groupKey, r1, readNum).value;
      key in b.paired && b.paired[key] == Bucket(Some(r1), Some(r2), -1) && b.log == []
  {
    MatesSharePairKey(groupKey, r1, r2);
  }

  /** Buckets built by filing never reach the "no mate at all" error
      branch, and for a complete one the span sentinel never applies. */
  lemma GoodBucketFilters(key: string, b: Bucket, lo: int, up: int)
    requires BucketShape(b)
    ensures forall e :: e in ExclusionLog(key, b, lo, up) ==> e.subject.OfRead?
    ensures b.mate1.Some? && b.mate2.Some? ==> ReadPairLen(b.mate1, b.mate2) == Span(b.mate1.value, b.mate2.value)
  {
    ExclusionLogNamesReads(key, b, lo, up);
  }

  /** Every bucket has the shape filing gives it. */
  predicate ShapedPaired(paired: map<string, Bucket>)
  {
    forall key :: key in paired ==> BucketShape(paired[key])
  }

  lemma StoreKeepsShape(paired: map<string, Bucket>, single: map<string, seq<Read>>, groupKey: string,
                        read: Read, readNum: string -> Option<string>)
    requires ShapedPaired(paired)
    requires Store(paired, single, groupKey, read, readNum).Some?
    ensures ShapedPaired(Store(paired, single, groupKey, read, readNum).value.paired)
  {
    if read.isProperPair {
      StorePairedKeepsShape(paired, single, PairKey(groupKey, read), read);
    }
  }

  lemma StorePairedKeepsShape(paired: map<string, Bucket>, single: map<string, seq<Read>>, key: string, read: Read)
    requires read.isProperPair
    requires ShapedPaired(paired)
    ensures ShapedPaired(StorePaired(paired, single, key, read).paired)
  {
  }

  /** Every record filed in the dictionaries occurs in `records`. */
  predicate StoredAmong(paired: map<string, Bucket>, single: map<string, seq<Read>>, records: seq<Read>)
  {
    && (forall key :: key in paired && paired[key].mate1.Some? ==> paired[key].mate1.value in records)
    && (forall key :: key in paired && paired[key].mate2.Some? ==> paired[key].mate2.value in records)
    && (forall key, r :: key in single && r in single[key] ==> r in records)
  }

  lemma StoreStoredAmong(paired: map<string, Bucket>, single: map<string, seq<Read>>, groupKey: string,
                         read: Read, readNum: string -> Option<string>, records: seq<Read>)
    requires StoredAmong(paired, single, records)
    requires Store(paired, single, groupKey, read, readNum).Some?
    ensures var st := Store(paired, single, groupKey, read, readNum).value;
      StoredAmong(st.paired, st.single, records + [read])
  {
    if read.isProperPair {
      StorePairedStoredAmong(paired, single, PairKey(groupKey, read), read, records);
    } else {
      StoreSingleStoredAmong(paired, single, SingleKey(groupKey, readNum(read.qname).value), read, records);
    }
  }

  lemma StorePairedStoredAmong(paired: map<string, Bucket>, single: map<string, seq<Read>>, key: string,
                               read: Read, records: seq<Read>)
    requires StoredAmong(paired, single, records)
    ensures var st := StorePaired(paired, single, key, read);
      StoredAmong(st.paired, st.single, records + [read])
  {
  }

  lemma StoreSingleStoredAmong(paired: map<string, Bucket>, single: map<string, seq<Read>>, key: string,
                               read: Read, records: seq<Read>)
    requires StoredAmong(paired, single, records)
    ensures var st := StoreSingle(paired, single, key, read);
      StoredAmong(st.paired, st.single, records + [read])
  {
    var st := StoreSingle(paired, single, key, read);
    forall k, r | k in st.single && r in st.single[k]
      ensures r in records + [read]
    {
      if k == key {
        assert st.single[k] == ListAt(single, key) + [read];
      }
    }
  }

  /** The effect of resolving a group: what is written and logged, the
      number added to the kept count, whether the pass goes on, and the
      dictionaries left behind (cleared unless the pass stops). */
  datatype GroupFlush = GroupFlush(out: seq<Read>, log: seq<LogEntry>, count: nat, ok: bool,
                                   paired: map<string, Bucket>, single: map<string, seq<Read>>)

  /** Pairs first, then (unless the pair write failed) singles, each in its
      visiting order (rmdup.py:274-277). */
  function FlushAll(paired: map<string, Bucket>, single: map<string, seq<Read>>,
                    pairOrder: seq<string>, singleOrder: seq<string>, lo: int, up: int): GroupFlush
    requires IsOrderOf(pairOrder, paired) && IsOrderOf(singleOrder, single)
  {
    var fp := FlushPairs(paired, pairOrder, lo, up);
    if !fp.ok then GroupFlush(fp.out, fp.log, 0, false, paired, single)
    else
      var fs := FlushSingles(single, singleOrder, |singleOrder|);
      GroupFlush(fp.out + fs.out, fp.log + fs.log, fp.count + fs.count, true, map[], map[])
  }

  /** The state after a flush `f`, given the state before it. */
  predicate FlushedTo(f: GroupFlush, ok: bool, out0: seq<Read>, out: seq<Read>, log0: seq<LogEntry>, log: seq<LogEntry>,
                      kept0: nat, kept: nat, paired: map<string, Bucket>, single: map<string, seq<Read>>)
  {
    && ok == f.ok
    && out == out0 + f.out
    && log == log0 + f.log
    && kept == kept0 + f.count
    && paired == f.paired && single == f.single
  }

  /** The pair half followed, when it succeeds, by the single-read half
      is the whole flush. */
  lemma FlushedInTwoHalves(paired: map<string, Bucket>, single: map<string, seq<Read>>,
                           pairOrder: seq<string>, singleOrder: seq<string>, lo: int, up: int, ok: bool,
                           out0: seq<Read>, out1: seq<Read>, out2: seq<Read>,
                           log0: seq<LogEntry>, log1: seq<LogEntry>, log2: seq<LogEntry>,
                           kept0: nat, kept1: nat, kept2: nat,
                           paired2: map<string, Bucket>, single2: map<string, seq<Read>>)
    requires IsOrderOf(pairOrder, paired) && IsOrderOf(singleOrder, single)
    requires var fp := FlushPairs(paired, pairOrder, lo, up);
      && ok == fp.ok && out1 == out0 + fp.out && log1 == log0 + fp.log
      && kept1 == kept0 + (if ok then fp.count else 0)
    requires !ok ==> out2 == out1 && log2 == log1 && kept2 == kept1 && paired2 == paired && single2 == single
    requires ok ==>
      var fs := FlushSingles(single, singleOrder, |singleOrder|);
      && out2 == out1 + fs.out && log2 == log1 + fs.log && kept2 == kept1 + fs.count
      && paired2 == map[] && single2 == map[]
    ensures FlushedTo(FlushAll(paired, single, pairOrder, singleOrder, lo, up),
                      ok, out0, out2, log0, log2, kept0, kept2, paired2, single2)
  {
    var fp := FlushPairs(paired, pairOrder, lo, up);
    var f := FlushAll(paired, single, pairOrder, singleOrder, lo, up);
    if ok {
      var fs := FlushSingles(single, singleOrder, |singleOrder|);
      assert f == GroupFlush(fp.out + fs.out, fp.log + fs.log, fp.count + fs.count, true, map[], map[]);
      SeqAssoc(out0, fp.out, fs.out);
      SeqAssoc(log0, fp.log, fs.log);
    } else {
      assert f == GroupFlush(fp.out, fp.log, 0, false, paired, single);
    }
  }

  /** A successful flush clears both dictionaries; a failed one adds
      nothing to the kept count and leaves them as they were. */
  lemma FlushAllClears(paired: map<string, Bucket>, single: map<string, seq<Read>>,
                       pairOrder: seq<string>, singleOrder: seq<string>, lo: int, up: int)
    requires IsOrderOf(pairOrder, paired) && IsOrderOf(singleOrder, single)
    ensures var f := FlushAll(paired, single, pairOrder, singleOrder, lo, up);
      && (f.ok ==> f.paired == map[] && f.single == map[])
      && (!f.ok ==> f.count == 0 && f.paired == paired && f.single == single)
  {
  }

  /** Resolving empty dictionaries, as on the first record, writes and logs
      nothing and adds 0. */
  lemma FlushOfEmptyGroups(pairOrder: seq<string>, singleOrder: seq<string>, lo: int, up: int)
    requires IsOrderOf<Bucket>(pairOrder, map[]) && IsOrderOf<seq<Read>>(singleOrder, map[])
    ensures FlushAll(map[], map[], pairOrder, singleOrder, lo, up) == GroupFlush([], [], 0, true, map[], map[])
  {
  }

  /** A resolved group adds between one and two written records per kept
      count (a pair counts once for its two records); a stopped pass has
      written at most one record of the failed pair. */
  lemma FlushAllCounts(paired: map<string, Bucket>, single: map<string, seq<Read>>,
                       pairOrder: seq<string>, singleOrder: seq<string>, lo: int, up: int)
    requires IsOrderOf(pairOrder, paired) && IsOrderOf(singleOrder, single)
    ensures var f := FlushAll(paired, single, pairOrder, singleOrder, lo, up);
      && (f.ok ==> f.count <= |f.out| <= 2 * f.count)
      && (!f.ok ==> f.count == 0 && |f.out| <= 1)
  {
    FlushPairsOutcome(paired, pairOrder, lo, up);
  }

  /** Everything a flush writes was filed in the dictionaries. */
  lemma FlushAllWritesStored(paired: map<string, Bucket>, single: map<string, seq<Read>>,
                             pairOrder: seq<string>, singleOrder: seq<string>, lo: int, up: int, records: seq<Read>)
    requires IsOrderOf(pairOrder, paired) && IsOrderOf(singleOrder, single)
    requires StoredAmong(paired, single, records)
    ensures forall r :: r in FlushAll(paired, single, pairOrder, singleOrder, lo, up).out ==> r in records
  {
    var fp := FlushPairs(paired, pairOrder, lo, up);
    if |paired| > 0 {
      var last := pairOrder[|pairOrder| - 1];
      assert last in paired;
    }
    assert forall r :: r in fp.out ==> r in records;
    if fp.ok {
      FlushSinglesCountsWinners(single, singleOrder, |singleOrder|);
      var fs := FlushSingles(single, singleOrder, |singleOrder|);
      forall r | r in fs.out
        ensures r in records
      {
        var j :| 0 <= j < |singleOrder| && r in single[singleOrder[j]];
      }
    }
  }

  /** A flush logs only the emitted categories, and, when every bucket
      has a mate, only lines that name a record. */
  lemma FlushAllCodes(paired: map<string, Bucket>, single: map<string, seq<Read>>,
                      pairOrder: seq<string>, singleOrder: seq<string>, lo: int, up: int)
    requires IsOrderOf(pairOrder, paired) && IsOrderOf(singleOrder, single)
    ensures forall e :: e in FlushAll(paired, single, pairOrder, singleOrder, lo, up).log ==> e.code in EmittedCodes
    ensures ShapedPaired(paired) ==>
      forall e :: e in FlushAll(paired, single, pairOrder, singleOrder, lo, up).log ==> e.subject.OfRead?
  {
    FlushPairsOutcome(paired, pairOrder, lo, up);
    ScanPairsCodes(paired, pairOrder, lo, up, |pairOrder|);
    FlushSinglesLogsLowScoreOnly(single, singleOrder, |singleOrder|);
    if ShapedPaired(paired) {
      ScanPairsLogsReads(paired, pairOrder, lo, up, |pairOrder|);
    }
  }

  /** How a record of the loop ends: it was filed, or the pass stopped on
      it because the key pattern did not match its name, because the number
      pattern did not match the name of a read that is not properly paired,
      or because resolving the previous group tried to write an empty mate
      slot. */
  datatype Outcome = Completed | KeyNotMatched(qname: string) | NumberNotMatched(qname: string) | AbsentMateWritten

  /** The state of the record loop between records: the current group key,
      both dictionaries, the kept and read counts, and what has been written
      and logged. */
  datatype LoopState = LoopState(groupKey: string, paired: map<string, Bucket>, single: map<string, seq<Read>>,
                                 kept: nat, readCount: nat, out: seq<Read>, log: seq<LogEntry>)

  datatype StepResult = StepResult(outcome: Outcome, state: LoopState)

  /** `read` carries a group key other than the current one. */
  predicate OpensGroup(cfg: Config, st: LoopState, read: Read)
  {
    cfg.readKey(read.qname).Some? && cfg.readKey(read.qname).value != st.groupKey
  }

  /** Entering group `g`: the previous group is resolved when `g` is a new
      key; nothing happens otherwise. */
  function GroupEntry(cfg: Config, st: LoopState, g: string, pairOrder: seq<string>, singleOrder: seq<string>): GroupFlush
    requires g != st.groupKey ==> IsOrderOf(pairOrder, st.paired) && IsOrderOf(singleOrder, st.single)
  {
    if g != st.groupKey
    then FlushAll(st.paired, st.single, pairOrder, singleOrder, cfg.lowerLimit, cfg.upperLimit)
    else GroupFlush([], [], 0, true, st.paired, st.single)
  }

  /** The loop's state once group `g` is entered with flush `f`. */
  function AfterFlush(st: LoopState, g: string, f: GroupFlush): LoopState
  {
    LoopState(g, f.paired, f.single, st.kept + f.count, st.readCount, st.out + f.out, st.log + f.log)
  }

  /** One turn of the record loop on `read` (rmdup.py:268-321): the group
      key is taken from the name; a new key becomes the current one and the
      previous group is resolved with the given visiting orders; then the
      record is filed and counted. The turn stops the pass when the key or
      number pattern does not match or the pair write fails. */
  function Step(cfg: Config, st: LoopState, read: Read, pairOrder: seq<string>, singleOrder: seq<string>): StepResult
    requires OpensGroup(cfg, st, read) ==> IsOrderOf(pairOrder, st.paired) && IsOrderOf(singleOrder, st.single)
  {
    match cfg.readKey(read.qname)
    case None => StepResult(KeyNotMatched(read.qname), st)
    case Some(g) =>
      var f := GroupEntry(cfg, st, g, pairOrder, singleOrder);
      var flushed := AfterFlush(st, g, f);
      if !f.ok then StepResult(AbsentMateWritten, flushed)
      else
        match Store(f.paired, f.single, g, read, cfg.readNum)
        case None => StepResult(NumberNotMatched(read.qname), flushed)
        case Some(filed) =>
          StepResult(Completed, flushed.(paired := filed.paired, single := filed.single,
                                         readCount := st.readCount + 1, log := flushed.log + filed.log))
  }

  /** A turn counts its record exactly when it completes, and stops on the
      key pattern exactly when that pattern does not match the name. */
  lemma StepCountsRecords(cfg: Config, st: LoopState, read: Read, pairOrder: seq<string>, singleOrder: seq<string>)
    requires OpensGroup(cfg, st, read) ==> IsOrderOf(pairOrder, st.paired) && IsOrderOf(singleOrder, st.single)
    ensures var r := Step(cfg, st, read, pairOrder, singleOrder);
      && r.state.readCount == st.readCount + (if r.outcome.Completed? then 1 else 0)
      && (r.outcome.KeyNotMatched? <==> cfg.readKey(read.qname).None?)
  {
  }

  /** A turn writes nothing and keeps nothing unless its record opens a new
      group, and then it appends exactly what resolving the previous group
      writes and adds exactly that flush's count; the log only grows. */
  lemma StepWritesOnlyFlushes(cfg: Config, st: LoopState, read: Read, pairOrder: seq<string>, singleOrder: seq<string>)
    requires OpensGroup(cfg, st, read) ==> IsOrderOf(pairOrder, st.paired) && IsOrderOf(singleOrder, st.single)
    ensures var r := Step(cfg, st, read, pairOrder, singleOrder);
      && st.log <= r.state.log
      && (!OpensGroup(cfg, st, read) ==> r.state.out == st.out && r.state.kept == st.kept)
      && (OpensGroup(cfg, st, read) ==>
            var f := FlushAll(st.paired, st.single, pairOrder, singleOrder, cfg.lowerLimit, cfg.upperLimit);
            r.state.out == st.out + f.out && r.state.kept == st.kept + f.count)
  {
  }

  /** A completed turn logs what resolving the previous group logs, then at
      most one line, an error naming its own record. */
  lemma StepLogsFlushThenErrors(cfg: Config, st: LoopState, read: Read, pairOrder: seq<string>, singleOrder: seq<string>)
    requires OpensGroup(cfg, st, read) ==> IsOrderOf(pairOrder, st.paired) && IsOrderOf(singleOrder, st.single)
    requires Step(cfg, st, read, pairOrder, singleOrder).outcome.Completed?
    ensures cfg.readKey(read.qname).Some?
    ensures var r, f := Step(cfg, st, read, pairOrder, singleOrder),
                        GroupEntry(cfg, st, cfg.readKey(read.qname).value, pairOrder, singleOrder);
      && r.state.groupKey == cfg.readKey(read.qname).value
      && st.log + f.log <= r.state.log
      && |r.state.log| <= |st.log| + |f.log| + 1
      && forall k :: |st.log| + |f.log| <= k < |r.state.log| ==> r.state.log[k] == LogEntry(ReadError, OfRead(read))
  {
    var g := cfg.readKey(read.qname).value;
    var f := GroupEntry(cfg, st, g, pairOrder, singleOrder);
    StoreLogsErrorsOnly(f.paired, f.single, g, read, cfg.readNum);
  }

  /** A turn on a record of the current group only appends to the log,
      and only error lines; the group key stays. */
  lemma StepInGroupLogsErrors(cfg: Config, st: LoopState, read: Read, pairOrder: seq<string>, singleOrder: seq<string>)
    requires cfg.readKey(read.qname) == Some(st.groupKey)
    ensures var r := Step(cfg, st, read, pairOrder, singleOrder);
      && st.log <= r.state.log
      && r.state.groupKey == st.groupKey
      && forall k :: |st.log| <= k < |r.state.log| ==> r.state.log[k].code == ReadError
  {
    if Store(st.paired, st.single, st.groupKey, read, cfg.readNum).Some? {
      StoreLogsErrorsOnly(st.paired, st.single, st.groupKey, read, cfg.readNum);
    }
  }

  /** The state of the record loop of `main`. */
  class Deduplicator {
    const cfg: Config
    var paired: map<string, Bucket>
    var single: map<string, seq<Read>>
    var currentGroupKey: string
    var keptCount: nat
    var readCount: nat

    constructor (cfg: Config)
      ensures this.cfg == cfg
      ensures paired == map[] && single == map[] && currentGroupKey == ""
      ensures keptCount == 0 && readCount == 0
    {
      this.cfg := cfg;
      paired := map[];
      single := map[];
      currentGroupKey := "";
      keptCount := 0;
      readCount := 0;
    }

    /** The loop's state, with the sink's contents. */
    ghost function State(sink: Sink): LoopState
      reads this, sink
    {
      LoopState(currentGroupKey, paired, single, keptCount, readCount, sink.out, sink.log)
    }

    /** The pair half of a flush (rmdup.py:274). */
    method ResolvePairs(sink: Sink) returns (ok: bool, pairOrder: seq<string>)
      modifies this, sink
      ensures IsOrderOf(pairOrder, paired)
      ensures var fp := FlushPairs(paired, pairOrder, cfg.lowerLimit, cfg.upperLimit);
        && ok == fp.ok
        && sink.out == old(sink.out) + fp.out
        && sink.log == old(sink.log) + fp.log
        && keptCount == old(keptCount) + (if ok then fp.count else 0)
      ensures paired == old(paired) && single == old(single)
      ensures currentGroupKey == old(currentGroupKey) && readCount == old(readCount)
    {
      pairOrder := KeysInSomeOrder(paired);
      var pairCount;
      pairCount, ok := UniquePairedReads(paired, pairOrder, cfg.lowerLimit, cfg.upperLimit, sink);
      if ok {
        keptCount := keptCount + pairCount;
      }
    }

    /** The single-read half of a flush (rmdup.py:275), then both
        dictionaries are cleared (rmdup.py:276-277). */
    method ResolveSingles(sink: Sink) returns (singleOrder: seq<string>)
      modifies this, sink
      ensures IsOrderOf(singleOrder, old(single))
      ensures var fs := FlushSingles(old(single), singleOrder, |singleOrder|);
        && sink.out == old(sink.out) + fs.out
        && sink.log == old(sink.log) + fs.log
        && keptCount == old(keptCount) + fs.count
      ensures paired == map[] && single == map[]
      ensures currentGroupKey == old(currentGroupKey) && readCount == old(readCount)
    {
      singleOrder := KeysInSomeOrder(single);
      var count := UniqueSingleReads(single, singleOrder, sink);
      keptCount := keptCount + count;
      paired := map[];
      single := map[];
    }

    /** Resolve and clear both dictionaries (rmdup.py:274-277); the pair
        write failing stops the pass before singles are resolved. */
    method FlushGroup(sink: Sink) returns (ok: bool, pairOrder: seq<string>, singleOrder: seq<string>)
      modifies this, sink
      ensures IsOrderOf(pairOrder, old(paired)) && IsOrderOf(singleOrder, old(single))
      ensures FlushedTo(FlushAll(old(paired), old(single), pairOrder, singleOrder, cfg.lowerLimit, cfg.upperLimit),
                        ok, old(sink.out), sink.out, old(sink.log), sink.log, old(keptCount), keptCount, paired, single)
      ensures currentGroupKey == old(currentGroupKey) && readCount == old(readCount)
    {
      ghost var p0, s0, out0, log0, kept0 := paired, single, sink.out, sink.log, keptCount;
      ok, pairOrder := ResolvePairs(sink);
      ghost var out1, log1, kept1 := sink.out, sink.log, keptCount;
      if ok {
        singleOrder := ResolveSingles(sink);
      } else {
        singleOrder := KeysInSomeOrder(single);
      }
      FlushedInTwoHalves(p0, s0, pairOrder, singleOrder, cfg.lowerLimit, cfg.upperLimit, ok,
                         out0, out1, sink.out, log0, log1, sink.log, kept0, kept1, keptCount, paired, single);
    }

    /** File a properly paired record in its mate slot in place
        (rmdup.py:280-307). */
    method FilePaired(read: Read, sink: Sink)
      requires read.isProperPair
      modifies this, sink
      ensures var st := Store(old(paired), old(single), currentGroupKey, read, cfg.readNum);
        && st.Some?
        && paired == st.value.paired && single == old(single) && sink.log == old(sink.log) + st.value.log
      ensures sink.out == old(sink.out)
      ensures currentGroupKey == old(currentGroupKey) && keptCount == old(keptCount) && readCount == old(readCount)
    {
      var readKey := PairKey(currentGroupKey, read);
      FileIntoBucket(readKey, read, sink);
    }

    /** The mate-slot logic for a properly paired record with bucket key
        `readKey`: its slot from its flags, an error when it has none or the
        slot is taken, else the slot is filled, in a new bucket
        `[None, None, -1]` if the key is new. */
    method FileIntoBucket(readKey: string, read: Read, sink: Sink)
      modifies this, sink
      ensures var st := StorePaired(old(paired), old(single), readKey, read);
        paired == st.paired && single == old(single) && sink.log == old(sink.log) + st.log
      ensures sink.out == old(sink.out)
      ensures currentGroupKey == old(currentGroupKey) && keptCount == old(keptCount) && readCount == old(readCount)
    {
      var readType := -1;
      if read.isRead1 {
        readType := 0;
      } else if read.isRead2 {
        readType := 1;
      } else {
        sink.Log(ReadError, OfRead(read));
      }
      if readType == 0 || readType == 1 {
        assert SlotOf(read) == Some(readType);
        if readKey in paired {
          if SlotFilled(paired[readKey], readType) {
            sink.Log(ReadError, OfRead(read));
          } else {
            paired := paired[readKey := Fill(paired[readKey], readType, read)];
          }
        } else {
          paired := paired[readKey := EmptyBucket];
          paired := paired[readKey := Fill(paired[readKey], readType, read)];
        }
      }
    }

    /** Append a record that is not properly paired to its single key's
        list in place (rmdup.py:312-316); fails when the number pattern does
        not match. */
    method FileSingle(read: Read, sink: Sink) returns (ok: bool)
      requires !read.isProperPair
      modifies this
      ensures var st := Store(old(paired), old(single), currentGroupKey, read, cfg.readNum);
        && ok == st.Some?
        && paired == old(paired)
        && (ok ==> single == st.value.single && st.value.log == [])
        && (!ok ==> single == old(single))
      ensures currentGroupKey == old(currentGroupKey) && keptCount == old(keptCount) && readCount == old(readCount)
    {
      var num := cfg.readNum(read.qname);
      if num.None? {
        return false;
      }
      var readKey := SingleKey(currentGroupKey, num.value);
      if readKey in single {
        single := single[readKey := single[readKey] + [read]];
      } else {
        assert ListAt(single, readKey) + [read] == [read];
        single := single[readKey := [read]];
      }
      ok := true;
    }

    /** File one record of the current group (rmdup.py:279-316). */
    method File(read: Read, sink: Sink) returns (ok: bool)
      modifies this, sink
      ensures var st := Store(old(paired), old(single), currentGroupKey, read, cfg.readNum);
        && ok == st.Some?
        && (ok ==> paired == st.value.paired && single == st.value.single && sink.log == old(sink.log) + st.value.log)
        && (!ok ==> paired == old(paired) && single == old(single) && sink.log == old(sink.log))
      ensures sink.out == old(sink.out)
      ensures currentGroupKey == old(currentGroupKey) && keptCount == old(keptCount) && readCount == old(readCount)
    {
      if read.isProperPair {
        FilePaired(read, sink);
        ok := true;
      } else {
        ok := FileSingle(read, sink);
      }
    }

    /** A group key other than the current one becomes the current one
        and the previous group is resolved (rmdup.py:269-277). */
    method EnterGroup(g: string, sink: Sink) returns (ok: bool, pairOrder: seq<string>, singleOrder: seq<string>)
      modifies this, sink
      ensures g != old(currentGroupKey) ==> IsOrderOf(pairOrder, old(paired)) && IsOrderOf(singleOrder, old(single))
      ensures var f := GroupEntry(cfg, old(State(sink)), g, pairOrder, singleOrder);
        ok == f.ok && State(sink) == AfterFlush(old(State(sink)), g, f)
    {
      ok, pairOrder, singleOrder := true, [], [];
      if g != currentGroupKey {
        currentGroupKey := g;
        ok, pairOrder, singleOrder := FlushGroup(sink);
      }
    }

    /** One iteration of the record loop (rmdup.py:268-321): find the group
        key, flush on a change of group, file the record, count it. */
    method Consume(read: Read, sink: Sink) returns (outcome: Outcome, pairOrder: seq<string>, singleOrder: seq<string>)
      modifies this, sink
      ensures OpensGroup(cfg, old(State(sink)), read) ==>
        IsOrderOf(pairOrder, old(paired)) && IsOrderOf(singleOrder, old(single))
      ensures StepResult(outcome, State(sink)) == Step(cfg, old(State(sink)), read, pairOrder, singleOrder)
    {
      pairOrder, singleOrder := [], [];
      var groupKey := cfg.readKey(read.qname);
      if groupKey.None? {
        return KeyNotMatched(read.qname), pairOrder, singleOrder;
      }
      var ok;
      ok, pairOrder, singleOrder := EnterGroup(groupKey.value, sink);
      if !ok {
        return AbsentMateWritten, pairOrder, singleOrder;
      }
      var filed := File(read, sink);
      if !filed {
        return NumberNotMatched(read.qname), pairOrder, singleOrder;
      }
      readCount := readCount + 1;
      outcome := Completed;
    }
  }

  /** What holds after the first `i` records: the current group started at
      `groupStart` and every record since belongs to it; the dictionaries
      are well formed and hold only records of the current group; the kept
      count lies between half the written records and all of them; only
      records before the current group were written; only the emitted
      categories were logged; before any group was resolved nothing but
      arrival errors was logged; and the record before the current group
      carries another group key, so the group starts exactly at `groupStart`. */
  ghost predicate Progress(records: seq<Read>, cfg: Config, i: nat, groupStart: nat, groupKey: string,
                           paired: map<string, Bucket>, single: map<string, seq<Read>>,
                           kept: nat, out: seq<Read>, log: seq<LogEntry>)
  {
    && i <= |records| && groupStart <= i && (i > 0 ==> groupStart < i)
    && (i == 0 ==> paired == map[] && single == map[])
    && ShapedPaired(paired)
    && StoredAmong(paired, single, records[groupStart..i])
    && (forall j :: groupStart <= j < i ==> InGroup(cfg, groupKey, records[j]))
    && (0 < groupStart ==> cfg.readKey(records[groupStart - 1].qname) != Some(groupKey))
    && kept <= |out| <= 2 * kept
    && (forall r :: r in out ==> r in records[..groupStart])
    && (forall e :: e in log ==> e.code in EmittedCodes && e.subject.OfRead?)
    && (groupStart == 0 ==> out == [] && kept == 0 && forall e :: e in log ==> e.code == ReadError)
  }

  lemma SliceMember(records: seq<Read>, a: nat, b: nat, r: Read)
    requires a <= b <= |records|
    requires r in records[a..b]
    ensures r in records[..b]
  {
    var k :| 0 <= k < b - a && records[a..b][k] == r;
    assert records[..b][a + k] == r;
  }

  lemma SliceExtend(records: seq<Read>, a: nat, b: nat)
    requires a <= b < |records|
    ensures records[a..b + 1] == records[a..b] + [records[b]]
  {
  }

  /** Filing record `i` of the current group keeps the loop's invariant. */
  lemma ProgressOnFile(records: seq<Read>, cfg: Config, i: nat, groupStart: nat, groupKey: string,
                       paired: map<string, Bucket>, single: map<string, seq<Read>>,
                       kept: nat, out: seq<Read>, log: seq<LogEntry>)
    requires i < |records|
    requires Progress(records, cfg, i, groupStart, groupKey, paired, single, kept, out, log)
    requires InGroup(cfg, groupKey, records[i])
    requires Store(paired, single, groupKey, records[i], cfg.readNum).Some?
    ensures var st := Store(paired, single, groupKey, records[i], cfg.readNum).value;
      Progress(records, cfg, i + 1, groupStart, groupKey, st.paired, st.single, kept, out, log + st.log)
  {
    StoreKeepsShape(paired, single, groupKey, records[i], cfg.readNum);
    StoreLogsErrorsOnly(paired, single, groupKey, records[i], cfg.readNum);
    StoreStoredAmong(paired, single, groupKey, records[i], cfg.readNum, records[groupStart..i]);
    SliceExtend(records, groupStart, i);
  }

  /** Resolving the current group when record `i` opens a new one: the
      kept count keeps its bounds (one record of a failed pair may be
      written beyond them), everything written precedes record `i`, and
      only the emitted categories are logged. Empty dictionaries, as at the
      first record, cannot fail. */
  lemma FlushFacts(records: seq<Read>, cfg: Config, i: nat, groupStart: nat, groupKey: string,
                   paired: map<string, Bucket>, single: map<string, seq<Read>>,
                   kept: nat, out: seq<Read>, log: seq<LogEntry>,
                   pairOrder: seq<string>, singleOrder: seq<string>)
    requires i < |records|
    requires Progress(records, cfg, i, groupStart, groupKey, paired, single, kept, out, log)
    requires IsOrderOf(pairOrder, paired) && IsOrderOf(singleOrder, single)
    ensures var f := FlushAll(paired, single, pairOrder, singleOrder, cfg.lowerLimit, cfg.upperLimit);
      && (f.ok ==> kept + f.count <= |out + f.out| <= 2 * (kept + f.count))
      && (!f.ok ==> 0 < i && kept <= |out + f.out| <= 2 * kept + 1)
      && (forall r :: r in out + f.out ==> r in records[..i])
      && (forall e :: e in log + f.log ==> e.code in EmittedCodes && e.subject.OfRead?)
      && (f.ok ==> f.paired == map[] && f.single == map[])
      && (i == 0 ==> f.ok && f.out == [] && f.count == 0 && f.log == [])
  {
    var f := FlushAll(paired, single, pairOrder, singleOrder, cfg.lowerLimit, cfg.upperLimit);
    if i == 0 {
      FlushOfEmptyGroups(pairOrder, singleOrder, cfg.lowerLimit, cfg.upperLimit);
    }
    FlushAllCounts(paired, single, pairOrder, singleOrder, cfg.lowerLimit, cfg.upperLimit);
    FlushAllCodes(paired, single, pairOrder, singleOrder, cfg.lowerLimit, cfg.upperLimit);
    FlushAllWritesStored(paired, single, pairOrder, singleOrder, cfg.lowerLimit, cfg.upperLimit, records[groupStart..i]);
    forall r | r in out + f.out
      ensures r in records[..i]
    {
      if r in out {
        SliceMember(records, 0, groupStart, r);
        assert records[..groupStart] == records[0..groupStart];
        assert records[..groupStart] == records[..i][..groupStart];
      } else {
        SliceMember(records, groupStart, i, r);
      }
    }
  }

  /** Filing record `i` into cleared dictionaries starts a group at `i`
      with the invariant holding for the records written and logged so far. */
  lemma ProgressRestart(records: seq<Read>, cfg: Config, i: nat, newKey: string,
                        kept: nat, out: seq<Read>, log: seq<LogEntry>)
    requires i < |records|
    requires InGroup(cfg, newKey, records[i])
    requires Store(map[], map[], newKey, records[i], cfg.readNum).Some?
    requires kept <= |out| <= 2 * kept
    requires forall r :: r in out ==> r in records[..i]
    requires forall e :: e in log ==> e.code in EmittedCodes && e.subject.OfRead?
    requires i == 0 ==> out == [] && kept == 0 && forall e :: e in log ==> e.code == ReadError
    requires 0 < i ==> cfg.readKey(records[i - 1].qname) != Some(newKey)
    ensures var st := Store(map[], map[], newKey, records[i], cfg.readNum).value;
      Progress(records, cfg, i + 1, i, newKey, st.paired, st.single, kept, out, log + st.log)
  {
    StoreKeepsShape(map[], map[], newKey, records[i], cfg.readNum);
    StoreLogsErrorsOnly(map[], map[], newKey, records[i], cfg.readNum);
    StoreStoredAmong(map[], map[], newKey, records[i], cfg.readNum, records[i..i]);
    SliceExtend(records, i, i);
  }

  /** Record `i` opening a new group: the previous group is resolved, the
      current group restarts at `i`, and the record is filed into the
      cleared dictionaries. */
  lemma ProgressOnFlush(records: seq<Read>, cfg: Config, i: nat, groupStart: nat, groupKey: string,
                        paired: map<string, Bucket>, single: map<string, seq<Read>>,
                        kept: nat, out: seq<Read>, log: seq<LogEntry>,
                        pairOrder: seq<string>, singleOrder: seq<string>, newKey: string)
    requires i < |records|
    requires Progress(records, cfg, i, groupStart, groupKey, paired, single, kept, out, log)
    requires IsOrderOf(pairOrder, paired) && IsOrderOf(singleOrder, single)
    requires InGroup(cfg, newKey, records[i]) && newKey != groupKey
    requires var f := FlushAll(paired, single, pairOrder, singleOrder, cfg.lowerLimit, cfg.upperLimit);
      f.ok && Store(f.paired, f.single, newKey, records[i], cfg.readNum).Some?
    ensures var f := FlushAll(paired, single, pairOrder, singleOrder, cfg.lowerLimit, cfg.upperLimit);
      var st := Store(f.paired, f.single, newKey, records[i], cfg.readNum).value;
      Progress(records, cfg, i + 1, i, newKey, st.paired, st.single, kept + f.count, out + f.out, log + f.log + st.log)
  {
    FlushFacts(records, cfg, i, groupStart, groupKey, paired, single, kept, out, log, pairOrder, singleOrder);
    var f := FlushAll(paired, single, pairOrder, singleOrder, cfg.lowerLimit, cfg.upperLimit);
    if i == 0 {
      assert out + f.out == [] && log + f.log == log;
    } else {
      assert InGroup(cfg, groupKey, records[i - 1]);
    }
    ProgressRestart(records, cfg, i, newKey, kept + f.count, out + f.out, log + f.log);
  }

  /** All records carry the same group key. */
  predicate OneGroup(records: seq<Read>, cfg: Config)
  {
    forall j :: 0 <= j < |records| ==> cfg.readKey(records[j].qname) == cfg.readKey(records[0].qname)
  }

  /** What holds when the pass stops on record `i`: which check failed on
      it, the bounds on the kept count, and that everything written precedes
      `groupStart`, the start of the group being resolved or filed. */
  ghost predicate Stopped(records: seq<Read>, cfg: Config, i: nat, outcome: Outcome, groupStart: nat,
                          kept: nat, out: seq<Read>, log: seq<LogEntry>)
  {
    && i < |records|
    && !outcome.Completed?
    && (outcome.KeyNotMatched? ==>
          outcome.qname == records[i].qname && cfg.readKey(records[i].qname).None?)
    && (outcome.NumberNotMatched? ==>
          && outcome.qname == records[i].qname
          && cfg.readKey(records[i].qname).Some?
          && !records[i].isProperPair && cfg.readNum(records[i].qname).None?)
    && (outcome == AbsentMateWritten ==> 0 < i && cfg.readKey(records[i].qname).Some?)
    && kept <= |out| <= 2 * kept + (if outcome == AbsentMateWritten then 1 else 0)
    && (forall e :: e in log ==> e.code in EmittedCodes && e.subject.OfRead?)
    && groupStart <= i
    && (forall r :: r in out ==> r in records[..groupStart])
  }

  /** One turn of the record loop on record `i`: the turn `Step` describes,
      with the visiting orders it chose, and the loop's invariant carried
      across it. */
  method Advance(records: seq<Read>, cfg: Config, i: nat, ghost groupStart: nat, dedup: Deduplicator, sink: Sink)
    returns (outcome: Outcome, ghost newStart: nat, ghost pairOrder: seq<string>, ghost singleOrder: seq<string>)
    requires i < |records| && dedup.cfg == cfg && dedup.readCount == i
    requires Progress(records, cfg, i, groupStart, dedup.currentGroupKey, dedup.paired, dedup.single,
                      dedup.keptCount, sink.out, sink.log)
    requires OneGroup(records, cfg) ==> groupStart == 0
    modifies dedup, sink
    ensures outcome.Completed? ==>
      && dedup.readCount == i + 1
      && Progress(records, cfg, i + 1, newStart, dedup.currentGroupKey, dedup.paired, dedup.single,
                  dedup.keptCount, sink.out, sink.log)
      && (OneGroup(records, cfg) ==> newStart == 0)
    ensures !outcome.Completed? ==>
      && dedup.readCount == i
      && Stopped(records, cfg, i, outcome, newStart, dedup.keptCount, sink.out, sink.log)
    ensures OpensGroup(cfg, old(dedup.State(sink)), records[i]) ==>
      IsOrderOf(pairOrder, old(dedup.paired)) && IsOrderOf(singleOrder, old(dedup.single))
    ensures StepResult(outcome, dedup.State(sink)) ==
      Step(cfg, old(dedup.State(sink)), records[i], pairOrder, singleOrder)
  {
    ghost var st := dedup.State(sink);
    outcome, pairOrder, singleOrder := dedup.Consume(records[i], sink);
    newStart := if OpensGroup(cfg, st, records[i]) then i else groupStart;
    StepKeepsProgress(records, cfg, i, groupStart, st, pairOrder, singleOrder);
  }

  /** One turn of the loop keeps its invariant, or stops the pass in a
      state `Stopped` describes; a new group restarts the invariant at the
      current record. */
  lemma StepKeepsProgress(records: seq<Read>, cfg: Config, i: nat, groupStart: nat, st: LoopState,
                          pairOrder: seq<string>, singleOrder: seq<string>)
    requires i < |records| && st.readCount == i
    requires Progress(records, cfg, i, groupStart, st.groupKey, st.paired, st.single, st.kept, st.out, st.log)
    requires OneGroup(records, cfg) ==> groupStart == 0
    requires OpensGroup(cfg, st, records[i]) ==> IsOrderOf(pairOrder, st.paired) && IsOrderOf(singleOrder, st.single)
    ensures var r, newStart := Step(cfg, st, records[i], pairOrder, singleOrder),
                               if OpensGroup(cfg, st, records[i]) then i else groupStart;
      && (r.outcome.Completed? ==>
            && r.state.readCount == i + 1
            && Progress(records, cfg, i + 1, newStart, r.state.groupKey, r.state.paired, r.state.single,
                        r.state.kept, r.state.out, r.state.log)
            && (OneGroup(records, cfg) ==> newStart == 0))
      && (!r.outcome.Completed? ==>
            && r.state.readCount == i
            && Stopped(records, cfg, i, r.outcome, newStart, r.state.kept, r.state.out, r.state.log))
  {
    if OpensGroup(cfg, st, records[i]) {
      if i > 0 {
        assert InGroup(cfg, st.groupKey, records[i - 1]);
      }
      StepOnNewGroup(records, cfg, i, groupStart, st, pairOrder, singleOrder);
    } else {
      StepInGroup(records, cfg, i, groupStart, st, pairOrder, singleOrder);
    }
  }

  lemma StepOnNewGroup(records: seq<Read>, cfg: Config, i: nat, groupStart: nat, st: LoopState,
                       pairOrder: seq<string>, singleOrder: seq<string>)
    requires i < |records| && st.readCount == i
    requires Progress(records, cfg, i, groupStart, st.groupKey, st.paired, st.single, st.kept, st.out, st.log)
    requires OpensGroup(cfg, st, records[i])
    requires IsOrderOf(pairOrder, st.paired) && IsOrderOf(singleOrder, st.single)
    ensures var r := Step(cfg, st, records[i], pairOrder, singleOrder);
      && (r.outcome.Completed? ==>
            && r.state.readCount == i + 1
            && Progress(records, cfg, i + 1, i, r.state.groupKey, r.state.paired, r.state.single,
                        r.state.kept, r.state.out, r.state.log))
      && (!r.outcome.Completed? ==>
            && r.state.readCount == i
            && Stopped(records, cfg, i, r.outcome, i, r.state.kept, r.state.out, r.state.log))
  {
    var g := cfg.readKey(records[i].qname).value;
    FlushFacts(records, cfg, i, groupStart, st.groupKey, st.paired, st.single, st.kept, st.out, st.log,
               pairOrder, singleOrder);
    var f := FlushAll(st.paired, st.single, pairOrder, singleOrder, cfg.lowerLimit, cfg.upperLimit);
    if f.ok && Store(f.paired, f.single, g, records[i], cfg.readNum).Some? {
      ProgressOnFlush(records, cfg, i, groupStart, st.groupKey, st.paired, st.single, st.kept, st.out, st.log,
                      pairOrder, singleOrder, g);
    }
  }

  lemma StepInGroup(records: seq<Read>, cfg: Config, i: nat, groupStart: nat, st: LoopState,
                    pairOrder: seq<string>, singleOrder: seq<string>)
    requires i < |records| && st.readCount == i
    requires Progress(records, cfg, i, groupStart, st.groupKey, st.paired, st.single, st.kept, st.out, st.log)
    requires !OpensGroup(cfg, st, records[i])
    ensures var r := Step(cfg, st, records[i], pairOrder, singleOrder);
      && (r.outcome.Completed? ==>
            && r.state.readCount == i + 1
            && Progress(records, cfg, i + 1, groupStart, r.state.groupKey, r.state.paired, r.state.single,
                        r.state.kept, r.state.out, r.state.log))
      && (!r.outcome.Completed? ==>
            && r.state.readCount == i
            && Stopped(records, cfg, i, r.outcome, groupStart, r.state.kept, r.state.out, r.state.log))
  {
    var g := cfg.readKey(records[i].qname);
    if g.Some? && Store(st.paired, st.single, g.value, records[i], cfg.readNum).Some? {
      ProgressOnFile(records, cfg, i, groupStart, st.groupKey, st.paired, st.single, st.kept, st.out, st.log);
    }
  }
}
