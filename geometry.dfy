/** Pair geometry: the order-independent pair key built from reference
    name and position strings (rmdup.py:280-285) and the fragment span of a
    pair (rmdup.py:57-62). */
module Geometry {
  import opened Records

  /** The characters Python 2's `str.strip()` removes: space, and tab
      through carriage return. */
  predicate IsSpace(c: char)
  {
    c == ' ' || 9 <= c as int <= 13
  }

  function TrimLeft(s: string): (r: string)
    ensures |r| <= |s| && r == s[|s| - |r|..]
    ensures |r| == 0 || !IsSpace(r[0])
    ensures forall i :: 0 <= i < |s| - |r| ==> IsSpace(s[i])
  {
    if |s| > 0 && IsSpace(s[0]) then TrimLeft(s[1..]) else s
  }

  function TrimRight(s: string): (r: string)
    ensures |r| <= |s| && r == s[..|r|]
    ensures |r| == 0 || !IsSpace(r[|r| - 1])
    ensures forall i :: |r| <= i < |s| ==> IsSpace(s[i])
  {
    if |s| > 0 && IsSpace(s[|s| - 1]) then TrimRight(s[..|s| - 1]) else s
  }

  /** `str.strip()`: `s` without its leading and trailing whitespace. */
  function Strip(s: string): (r: string)
    ensures |r| <= |s|
    ensures |r| == 0 || (!IsSpace(r[0]) && !IsSpace(r[|r| - 1]))
  {
    TrimRight(TrimLeft(s))
  }

  function DigitChar(d: nat): char
    requires d < 10
  {
    (d + '0' as int) as char
  }

  /** Decimal rendering of a natural number, most significant digit first. */
  function NatToString(n: nat): (s: string)
    ensures |s| > 0
    ensures forall i :: 0 <= i < |s| ==> '0' <= s[i] <= '9'
    decreases n
  {
    if n < 10 then [DigitChar(n)] else NatToString(n / 10) + [DigitChar(n % 10)]
  }

  /** `str(i)` for an integer. */
  function IntToString(i: int): (s: string)
    ensures |s| > 0 && (s[0] == '-' <==> i < 0)
  {
    if i < 0 then "-" + NatToString(-i) else NatToString(i)
  }

  /** Python's `<` on strings: lexicographic order on character codes, a
      proper prefix being smaller. */
  predicate LexLess(a: string, b: string)
  {
    if |a| == 0 then |b| > 0
    else if |b| == 0 then false
    else if a[0] < b[0] then true
    else if a[0] == b[0] then LexLess(a[1..], b[1..])
    else false
  }

  /** Exactly one of `a < b`, `a == b`, `b < a` holds. */
  lemma {:induction false} LexTrichotomy(a: string, b: string)
    ensures LexLess(a, b) || a == b || LexLess(b, a)
    ensures !(LexLess(a, b) && LexLess(b, a))
    ensures LexLess(a, b) ==> a != b
  {
    if |a| > 0 && |b| > 0 && a[0] == b[0] {
      LexTrichotomy(a[1..], b[1..]);
      if a[1..] == b[1..] {
        assert a == [a[0]] + a[1..] && b == [b[0]] + b[1..];
      }
    }
  }

  /** Reference name (stripped) followed by the decimal position. */
  function ChrPos(refName: string, pos: int): string
  {
    Strip(refName) + IntToString(pos)
  }

  /** The group key followed by the two position strings, smaller first. */
  function OrderedKey(groupKey: string, a: string, b: string): string
  {
    if LexLess(a, b) then groupKey + ":" + a + ":" + b else groupKey + ":" + b + ":" + a
  }

  /** The bucket key of a properly paired read. */
  function PairKey(groupKey: string, read: Read): string
  {
    OrderedKey(groupKey, ChrPos(read.refName, read.pos), ChrPos(read.mateRefName, read.matePos))
  }

  /** The key does not depend on which of the two positions comes first. */
  lemma OrderedKeySymmetric(groupKey: string, a: string, b: string)
    ensures OrderedKey(groupKey, a, b) == OrderedKey(groupKey, b, a)
  {
    LexTrichotomy(a, b);
  }

  /** Two mates that see each other's position get the same key, whichever
      of them arrives first. */
  lemma MatesSharePairKey(groupKey: string, r1: Read, r2: Read)
    requires r1.mateRefName == r2.refName && r1.matePos == r2.pos
    requires r2.mateRefName == r1.refName && r2.matePos == r1.pos
    ensures PairKey(groupKey, r1) == PairKey(groupKey, r2)
  {
    OrderedKeySymmetric(groupKey, ChrPos(r1.refName, r1.pos), ChrPos(r2.refName, r2.pos));
  }

  /** From the start of mate 1 to the end of mate 2. */
  function Span(read1: Read, read2: Read): int
  {
    read2.pos + read2.queryLength - read1.pos
  }

  /** ReadPairLen: the span of a complete, correctly ordered pair, and -1
      otherwise. */
  function ReadPairLen(read1: Option<Read>, read2: Option<Read>): (len: int)
    ensures read1.None? || read2.None? ==> len == -1
    ensures read1.Some? && read2.Some? && !(read1.value.isRead1 && read2.value.isRead2) ==> len == -1
    ensures read1.Some? && read2.Some? && read1.value.isRead1 && read2.value.isRead2 ==>
              len == Span(read1.value, read2.value)
  {
    if !(read1.Some? && read2.Some?) then -1
    else if !(read1.value.isRead1 && read2.value.isRead2) then -1
    else read2.value.pos + read2.value.queryLength - read1.value.pos
  }

  /** With a non-negative lower bound (the default is 0) the sentinel is
      always out of bounds. */
  lemma SentinelOutOfBounds(read1: Option<Read>, read2: Option<Read>, lowerLimit: int, upperLimit: int)
    requires DefaultLowerLimit <= lowerLimit
    requires ReadPairLen(read1, read2) == -1
    ensures ReadPairLen(read1, read2) < lowerLimit || ReadPairLen(read1, read2) > upperLimit
  {
  }
}
