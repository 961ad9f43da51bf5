/** The whole pass of rmdup over its input records (rmdup.py:261-329). */
module Pass {
  import opened Records
  import opened Driver

  /** The loop's state before the first record (rmdup.py:261-266): no group
      key, empty dictionaries, both counters at zero, nothing written. */
  function InitialState(): LoopState
  {
    LoopState("", map[], map[], 0, 0, [], [])
  }

  /** The record loop from state `st` over the first `|pairOrders|` records,
      the turn on record `k` resolving a group with the visiting orders
      `pairOrders[k]` and `singleOrders[k]`. The run ends at the first turn
      that stops the pass; it is `None` when a turn that resolves a group is
      given orders that are not orders of that group's dictionaries. */
  function Run(cfg: Config, st: LoopState, records: seq<Read>,
               pairOrders: seq<seq<string>>, singleOrders: seq<seq<string>>): Option<StepResult>
    requires |pairOrders| == |singleOrders| <= |records|
    decreases |pairOrders|
  {
    if pairOrders == [] then Some(StepResult(Completed, st))
    else
      var k := |pairOrders| - 1;
      match Run(cfg, st, records, pairOrders[..k], singleOrders[..k])
      case None => None
      case Some(r) =>
        if !r.outcome.Completed? then Some(r)
        else if OpensGroup(cfg, r.state, records[k]) &&
                !(IsOrderOf(pairOrders[k], r.state.paired) && IsOrderOf(singleOrders[k], r.state.single))
        then None
        else Some(Step(cfg, r.state, records[k], pairOrders[k], singleOrders[k]))
  }

  /** A run that completed its turns so far takes the next turn as `Step`
      does. */
  lemma RunExtend(cfg: Config, st: LoopState, records: seq<Read>,
                  pairOrders: seq<seq<string>>, singleOrders: seq<seq<string>>, cur: LoopState,
                  pairOrder: seq<string>, singleOrder: seq<string>)
    requires |pairOrders| == |singleOrders| < |records|
    requires Run(cfg, st, records, pairOrders, singleOrders) == Some(StepResult(Completed, cur))
    requires OpensGroup(cfg, cur, records[|pairOrders|]) ==>
      IsOrderOf(pairOrder, cur.paired) && IsOrderOf(singleOrder, cur.single)
    ensures Run(cfg, st, records, pairOrders + [pairOrder], singleOrders + [singleOrder]) ==
      Some(Step(cfg, cur, records[|pairOrders|], pairOrder, singleOrder))
  {
    assert (pairOrders + [pairOrder])[..|pairOrders|] == pairOrders;
    assert (singleOrders + [singleOrder])[..|singleOrders|] == singleOrders;
  }

  /** A longer run only appends: what a shorter run wrote and logged is a
      prefix of what the longer one wrote and logged, and its counters are no
      larger. So the flushes of the closed groups follow one another in the
      output in the order the groups were closed. */
  lemma {:induction false} RunOnlyAppends(cfg: Config, st: LoopState, records: seq<Read>,
                                          pairOrders: seq<seq<string>>, singleOrders: seq<seq<string>>, k: nat)
    requires |pairOrders| == |singleOrders| <= |records| && k <= |pairOrders|
    requires Run(cfg, st, records, pairOrders, singleOrders).Some?
    ensures Run(cfg, st, records, pairOrders[..k], singleOrders[..k]).Some?
    ensures var a, b := Run(cfg, st, records, pairOrders[..k], singleOrders[..k]).value.state,
                        Run(cfg, st, records, pairOrders, singleOrders).value.state;
      a.out <= b.out && a.log <= b.log && a.kept <= b.kept && a.readCount <= b.readCount
    decreases |pairOrders|
  {
    if k == |pairOrders| {
      assert pairOrders[..k] == pairOrders && singleOrders[..k] == singleOrders;
    } else {
      var n := |pairOrders| - 1;
      assert pairOrders[..n][..k] == pairOrders[..k] && singleOrders[..n][..k] == singleOrders[..k];
      RunOnlyAppends(cfg, st, records, pairOrders[..n], singleOrders[..n], k);
      var r := Run(cfg, st, records, pairOrders[..n], singleOrders[..n]).value;
      if r.outcome.Completed? {
        StepWritesOnlyFlushes(cfg, r.state, records[n], pairOrders[n], singleOrders[n]);
        StepCountsRecords(cfg, r.state, records[n], pairOrders[n], singleOrders[n]);
      }
    }
  }

  /** A completed run whose records from `m` on all carry record `m`'s
      group key logs nothing but error lines after its turn on record `m`. */
  lemma {:induction false} RunTailLogsErrors(cfg: Config, st: LoopState, records: seq<Read>,
                                             pairOrders: seq<seq<string>>, singleOrders: seq<seq<string>>, m: nat)
    requires |pairOrders| == |singleOrders| <= |records| && m < |pairOrders|
    requires Run(cfg, st, records, pairOrders, singleOrders).Some?
    requires Run(cfg, st, records, pairOrders, singleOrders).value.outcome.Completed?
    requires forall j :: m <= j < |pairOrders| ==>
      cfg.readKey(records[j].qname) == cfg.readKey(records[m].qname)
    ensures Run(cfg, st, records, pairOrders[..m + 1], singleOrders[..m + 1]).Some?
    ensures var a, b := Run(cfg, st, records, pairOrders[..m + 1], singleOrders[..m + 1]).value.state,
                        Run(cfg, st, records, pairOrders, singleOrders).value.state;
      && a.log <= b.log
      && cfg.readKey(records[m].qname) == Some(b.groupKey)
      && forall k :: |a.log| <= k < |b.log| ==> b.log[k].code == ReadError
    decreases |pairOrders|
  {
    var n := |pairOrders| - 1;
    if n == m {
      RunEntersGroup(cfg, st, records, pairOrders, singleOrders);
      assert pairOrders[..m + 1] == pairOrders && singleOrders[..m + 1] == singleOrders;
    } else {
      assert pairOrders[..n][..m + 1] == pairOrders[..m + 1] && singleOrders[..n][..m + 1] == singleOrders[..m + 1];
      RunTailLogsErrors(cfg, st, records, pairOrders[..n], singleOrders[..n], m);
      RunStaysInGroup(cfg, st, records, pairOrders, singleOrders);
    }
  }

  /** A completed run's last turn leaves its record's group key current. */
  lemma RunEntersGroup(cfg: Config, st: LoopState, records: seq<Read>,
                       pairOrders: seq<seq<string>>, singleOrders: seq<seq<string>>)
    requires 0 < |pairOrders| == |singleOrders| <= |records|
    requires Run(cfg, st, records, pairOrders, singleOrders).Some?
    requires Run(cfg, st, records, pairOrders, singleOrders).value.outcome.Completed?
    ensures cfg.readKey(records[|pairOrders| - 1].qname) ==
      Some(Run(cfg, st, records, pairOrders, singleOrders).value.state.groupKey)
  {
    var n := |pairOrders| - 1;
    var r := Run(cfg, st, records, pairOrders[..n], singleOrders[..n]).value;
    StepLogsFlushThenErrors(cfg, r.state, records[n], pairOrders[n], singleOrders[n]);
  }

  /** A completed run whose last record belongs to the group current before
      it only appends error lines in that last turn. */
  lemma RunStaysInGroup(cfg: Config, st: LoopState, records: seq<Read>,
                        pairOrders: seq<seq<string>>, singleOrders: seq<seq<string>>)
    requires 0 < |pairOrders| == |singleOrders| <= |records|
    requires Run(cfg, st, records, pairOrders, singleOrders).Some?
    requires Run(cfg, st, records, pairOrders, singleOrders).value.outcome.Completed?
    requires var n := |pairOrders| - 1;
      && Run(cfg, st, records, pairOrders[..n], singleOrders[..n]).Some?
      && cfg.readKey(records[n].qname) == Some(Run(cfg, st, records, pairOrders[..n], singleOrders[..n]).value.state.groupKey)
    ensures var n := |pairOrders| - 1;
      var c, b := Run(cfg, st, records, pairOrders[..n], singleOrders[..n]).value.state,
                  Run(cfg, st, records, pairOrders, singleOrders).value.state;
      && c.log <= b.log
      && b.groupKey == c.groupKey
      && forall k :: |c.log| <= k < |b.log| ==> b.log[k].code == ReadError
  {
    var n := |pairOrders| - 1;
    var r := Run(cfg, st, records, pairOrders[..n], singleOrders[..n]).value;
    StepInGroupLogsErrors(cfg, r.state, records[n], pairOrders[n], singleOrders[n]);
  }

  /** One turn of the record loop on record `i`, as the next turn of the
      run so far. */
  method Turn(records: seq<Read>, cfg: Config, i: nat, ghost groupStart: nat, dedup: Deduplicator, sink: Sink,
              ghost start: LoopState, ghost pairOrders: seq<seq<string>>, ghost singleOrders: seq<seq<string>>)
    returns (outcome: Outcome, ghost newStart: nat, ghost pairOrders': seq<seq<string>>, ghost singleOrders': seq<seq<string>>)
    requires i < |records| && dedup.cfg == cfg && dedup.readCount == i
    requires Progress(records, cfg, i, groupStart, dedup.currentGroupKey, dedup.paired, dedup.single,
                      dedup.keptCount, sink.out, sink.log)
    requires OneGroup(records, cfg) ==> groupStart == 0
    requires |pairOrders| == |singleOrders| == i
    requires Run(cfg, start, records, pairOrders, singleOrders) == Some(StepResult(Completed, dedup.State(sink)))
    modifies dedup, sink
    ensures outcome.Completed? ==>
      && dedup.readCount == i + 1
      && Progress(records, cfg, i + 1, newStart, dedup.currentGroupKey, dedup.paired, dedup.single,
                  dedup.keptCount, sink.out, sink.log)
      && (OneGroup(records, cfg) ==> newStart == 0)
    ensures !outcome.Completed? ==>
      && dedup.readCount == i
      && Stopped(records, cfg, i, outcome, newStart, dedup.keptCount, sink.out, sink.log)
    ensures |pairOrders'| == |singleOrders'| == i + 1
    ensures Run(cfg, start, records, pairOrders', singleOrders') == Some(StepResult(outcome, dedup.State(sink)))
  {
    ghost var st := dedup.State(sink);
    ghost var pairOrder, singleOrder;
    outcome, newStart, pairOrder, singleOrder := Advance(records, cfg, i, groupStart, dedup, sink);
    RunExtend(cfg, start, records, pairOrders, singleOrders, st, pairOrder, singleOrder);
    pairOrders', singleOrders' := pairOrders + [pairOrder], singleOrders + [singleOrder];
  }

  /** The record loop of `main` (rmdup.py:267-323) over the input records,
      up to the end of the input or the record the pass stops on; it is the
      run `Run` describes with the visiting orders it returns. */
  method RunLoop(records: seq<Read>, cfg: Config, dedup: Deduplicator, sink: Sink)
    returns (outcome: Outcome, ghost groupStart: nat,
             ghost pairOrders: seq<seq<string>>, ghost singleOrders: seq<seq<string>>)
    requires dedup.cfg == cfg && dedup.State(sink) == InitialState()
    modifies dedup, sink
    ensures outcome.Completed? ==>
      && dedup.readCount == |records|
      && Progress(records, cfg, |records|, groupStart, dedup.currentGroupKey, dedup.paired, dedup.single,
                  dedup.keptCount, sink.out, sink.log)
      && (OneGroup(records, cfg) ==> groupStart == 0)
    ensures !outcome.Completed? ==>
      Stopped(records, cfg, dedup.readCount, outcome, groupStart, dedup.keptCount, sink.out, sink.log)
    ensures |singleOrders| == |pairOrders| <= |records|
    ensures |pairOrders| == dedup.readCount + (if outcome.Completed? then 0 else 1)
    ensures Run(cfg, InitialState(), records, pairOrders, singleOrders) ==
      Some(StepResult(outcome, dedup.State(sink)))
  {
    ghost var start := InitialState();
    var i := 0;
    groupStart := 0;
    outcome := Completed;
    pairOrders, singleOrders := [], [];
    while i < |records|
      invariant i <= |records| && outcome.Completed?
      invariant dedup.cfg == cfg && dedup.readCount == i
      invariant Progress(records, cfg, i, groupStart, dedup.currentGroupKey, dedup.paired, dedup.single,
                         dedup.keptCount, sink.out, sink.log)
      invariant OneGroup(records, cfg) ==> groupStart == 0
      invariant |pairOrders| == |singleOrders| == i
      invariant Run(cfg, start, records, pairOrders, singleOrders) == Some(StepResult(Completed, dedup.State(sink)))
    {
      outcome, groupStart, pairOrders, singleOrders :=
        Turn(records, cfg, i, groupStart, dedup, sink, start, pairOrders, singleOrders);
      if !outcome.Completed? {
        return;
      }
      i := i + 1;
    }
  }

  /** What the whole pass guarantees, from the loop's invariant at its end
      or at the record it stopped on. */
  lemma Conclusions(records: seq<Read>, cfg: Config, outcome: Outcome, readCount: nat, groupStart: nat,
                    groupKey: string, paired: map<string, Bucket>, single: map<string, seq<Read>>,
                    kept: nat, out: seq<Read>, log: seq<LogEntry>)
    requires outcome.Completed? ==>
      && readCount == |records|
      && Progress(records, cfg, |records|, groupStart, groupKey, paired, single, kept, out, log)
      && (OneGroup(records, cfg) ==> groupStart == 0)
    requires !outcome.Completed? ==> Stopped(records, cfg, readCount, outcome, groupStart, kept, out, log)
    ensures readCount <= |records|
    ensures outcome.Completed? <==> readCount == |records|
    ensures kept <= |out| <= 2 * kept + (if outcome == AbsentMateWritten then 1 else 0)
    ensures forall e :: e in log ==> e.code in EmittedCodes && e.subject.OfRead?
    ensures groupStart <= readCount
    ensures forall r :: r in out ==> r in records[..groupStart]
    ensures outcome.Completed? && 0 < |records| ==> groupStart < |records|
    ensures outcome.Completed? && groupStart < |records| ==>
      forall j :: groupStart <= j < |records| ==>
        cfg.readKey(records[j].qname) == cfg.readKey(records[groupStart].qname)
    ensures outcome.Completed? && 0 < groupStart < |records| ==>
      cfg.readKey(records[groupStart - 1].qname) != cfg.readKey(records[groupStart].qname)
    ensures outcome.Completed? && OneGroup(records, cfg) ==>
      out == [] && kept == 0 && forall e :: e in log ==> e.code == ReadError
  {
    if outcome.Completed? && groupStart < |records| {
      assert InGroup(cfg, groupKey, records[groupStart]);
    }
  }

  /** The record loop of `main` over the input records: what it writes,
      logs and counts is the run `Run` describes from `InitialState`, with
      the visiting orders the flushes chose. `readCount` is the
      number of records processed, and the record at that position is the one
      the pass stopped on, if it stopped. On a completed pass over a non-empty
      input, `finalGroupStart` is where the last group begins: every record
      from there on has one group key and the record before it another.
      Nothing from there on is ever written, because no flush follows the
      loop. */
  method Deduplicate(records: seq<Read>, cfg: Config)
    returns (out: seq<Read>, log: seq<LogEntry>, keptCount: nat, readCount: nat, outcome: Outcome,
             ghost finalGroupStart: nat, ghost pairOrders: seq<seq<string>>, ghost singleOrders: seq<seq<string>>)
    ensures |singleOrders| == |pairOrders| <= |records|
    ensures |pairOrders| == readCount + (if outcome.Completed? then 0 else 1)
    ensures var r := Run(cfg, InitialState(), records, pairOrders, singleOrders);
      && r.Some? && r.value.outcome == outcome
      && r.value.state.out == out && r.value.state.log == log
      && r.value.state.kept == keptCount && r.value.state.readCount == readCount
    ensures readCount <= |records|
    ensures outcome.Completed? <==> readCount == |records|
    ensures outcome.KeyNotMatched? ==>
      outcome.qname == records[readCount].qname && cfg.readKey(records[readCount].qname).None?
    ensures outcome.NumberNotMatched? ==>
      && outcome.qname == records[readCount].qname
      && cfg.readKey(records[readCount].qname).Some?
      && !records[readCount].isProperPair && cfg.readNum(records[readCount].qname).None?
    ensures outcome == AbsentMateWritten ==> 0 < readCount && cfg.readKey(records[readCount].qname).Some?
    ensures keptCount <= |out| <= 2 * keptCount + (if outcome == AbsentMateWritten then 1 else 0)
    ensures forall e :: e in log ==> e.code in EmittedCodes && e.subject.OfRead?
    ensures finalGroupStart <= readCount
    ensures forall r :: r in out ==> r in records[..finalGroupStart]
    ensures outcome.Completed? && 0 < |records| ==> finalGroupStart < |records|
    ensures outcome.Completed? && finalGroupStart < |records| ==>
      forall j :: finalGroupStart <= j < |records| ==>
        cfg.readKey(records[j].qname) == cfg.readKey(records[finalGroupStart].qname)
    ensures outcome.Completed? && 0 < finalGroupStart < |records| ==>
      cfg.readKey(records[finalGroupStart - 1].qname) != cfg.readKey(records[finalGroupStart].qname)
    ensures outcome.Completed? && OneGroup(records, cfg) ==>
      out == [] && keptCount == 0 && forall e :: e in log ==> e.code == ReadError
    ensures outcome.Completed? && 0 < |records| ==>
      Run(cfg, InitialState(), records, pairOrders[..finalGroupStart + 1], singleOrders[..finalGroupStart + 1]).Some?
    ensures outcome.Completed? && 0 < |records| ==>
      var first := Run(cfg, InitialState(), records, pairOrders[..finalGroupStart + 1],
                       singleOrders[..finalGroupStart + 1]).value.state;
      && first.log <= log
      && forall k :: |first.log| <= k < |log| ==> log[k].code == ReadError
  {
    var dedup := new Deduplicator(cfg);
    var sink := new Sink();
    outcome, finalGroupStart, pairOrders, singleOrders := RunLoop(records, cfg, dedup, sink);
    out, log, keptCount, readCount := sink.out, sink.log, dedup.keptCount, dedup.readCount;
    Conclusions(records, cfg, outcome, readCount, finalGroupStart, dedup.currentGroupKey, dedup.paired, dedup.single,
                keptCount, out, log);
    if outcome.Completed? && 0 < |records| {
      RunTailLogsErrors(cfg, InitialState(), records, pairOrders, singleOrders, finalGroupStart);
    }
  }
}
