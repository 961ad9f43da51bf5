/** Alignment records, buckets, log entries and the output and log sinks of
    the deduplication engine of rmdup. */
module Records {

  datatype Option<T> = None | Some(value: T)

  /** One CIGAR operation: an operation code (0 is M, an alignment match)
      and the number of bases it covers. */
  datatype CigarOp = CigarOp(op: int, len: nat)

  /** The fields of an alignment record that the engine reads. Reference
      names are stored as the alignment store's id-to-name lookup returns
      them, unstripped. */
  datatype Read = Read(
    qname: string,
    refName: string,
    pos: int,
    queryLength: int,
    cigar: seq<CigarOp>,
    isRead1: bool,
    isRead2: bool,
    isProperPair: bool,
    mateRefName: string,
    matePos: int)

  /** The CIGAR operation code that counts as a match. */
  const MatchOp: int := 0

  /** Log categories: the first character of every log line. */
  const ReadError: char := '!'
  const ReadLowScore: char := '<'
  const ReadMultiBest: char := '='
  const ReadWrongChrom: char := '~'
  const ReadWrongSize: char := '?'

  /** The default lower bound on a pair's fragment span (rmdup.py:18). */
  const DefaultLowerLimit: int := 0

  /** What a log line renders after its category: a record, or (for a
      bucket with no mate at all) the bucket's key. */
  datatype Subject = OfRead(read: Read) | OfKey(key: string)

  datatype LogEntry = LogEntry(code: char, subject: Subject)

  /** A pair bucket: slot 0 (first in pair), slot 1 (second in pair) and a
      score placeholder that is set to -1 and never read. */
  datatype Bucket = Bucket(mate1: Option<Read>, mate2: Option<Read>, score: int)

  const EmptyBucket: Bucket := Bucket(None, None, -1)

  /** Run parameters, fixed for the whole pass. `readKey` stands for
      joining the capture groups of the first match of the key pattern and
      `readNum` for the first match of the number pattern; `None` means the
      pattern does not match. */
  datatype Config = Config(
    readKey: string -> Option<string>,
    readNum: string -> Option<string>,
    lowerLimit: int,
    upperLimit: int)

  /** Every key `order` lists is a key of `m`. */
  predicate KeysIn<V>(order: seq<string>, m: map<string, V>)
  {
    forall i :: 0 <= i < |order| ==> order[i] in m
  }

  /** `order` lists every key of `m` exactly once: a possible visiting order
      of a dictionary. */
  predicate IsOrderOf<V>(order: seq<string>, m: map<string, V>)
  {
    && |order| == |m|
    && KeysIn(order, m)
    && (forall k :: k in m ==> k in order)
    && (forall i, j :: 0 <= i < j < |order| ==> order[i] != order[j])
  }

  /** The output alignment file and the log file: append-only sequences. */
  class Sink {
    var out: seq<Read>
    var log: seq<LogEntry>

    constructor ()
      ensures out == [] && log == []
    {
      out := [];
      log := [];
    }

    method Write(r: Read)
      modifies this
      ensures out == old(out) + [r]
      ensures log == old(log)
    {
      out := out + [r];
    }

    method Log(code: char, subject: Subject)
      modifies this
      ensures log == old(log) + [LogEntry(code, subject)]
      ensures out == old(out)
    {
      log := log + [LogEntry(code, subject)];
    }
  }

  lemma SeqAssoc<T>(a: seq<T>, b: seq<T>, c: seq<T>)
    ensures a + b + c == a + (b + c)
  {
  }

  /** Some visiting order of the keys of `m`; which one is left open, as the
      iteration order of a dictionary is. */
  method KeysInSomeOrder<V>(m: map<string, V>) returns (order: seq<string>)
    ensures IsOrderOf(order, m)
  {
    order := [];
    var rest := m.Keys;
    while rest != {}
      invariant rest <= m.Keys
      invariant |order| + |rest| == |m.Keys|
      invariant forall i :: 0 <= i < |order| ==> order[i] in m && order[i] !in rest
      invariant forall k :: k in m && k !in rest ==> k in order
      invariant forall i, j :: 0 <= i < j < |order| ==> order[i] != order[j]
      decreases |rest|
    {
      var k :| k in rest;
      order := order + [k];
      rest := rest - {k};
    }
  }
}
