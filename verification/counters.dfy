/**
 The counters of one per-minute bucket, and sums and maxima of them over the lines of a metrics
 log. `Field` names the counters that are added up, so that a statement about all of them is one
 quantifier over integers.
 */
module MinuteCounters {

  // "true" / "false" / "" in the source: the request's stream parameter, unknown when absent.
  datatype Stream = Unknown | Streaming | Whole

  datatype PeerKey = PeerKey(peer: string, stream: Stream)

  datatype Key = Key(minute: int, pk: PeerKey)

  datatype Counters = Counters(
    requests: int, status2xx: int, status4xx: int, status5xx: int,
    promptTok: int, cachedTok: int, complTok: int, totalTok: int,
    reqBytes: int, respBytes: int, rtSumMs: int, rtMaxMs: int,
    frtSumMs: int, frtMaxMs: int, frtN: int)

  const ZERO := Counters(0, 0, 0, 0, 0, 0, 0, 0, 0, 0, 0, 0, 0, 0, 0)

  datatype Field =
    | Requests | Status2xx | Status4xx | Status5xx
    | PromptTok | CachedTok | ComplTok | TotalTok
    | ReqBytes | RespBytes | RTSumMs | FrtSumMs | FrtN

  function Get(c: Counters, f: Field): int {
    match f
    case Requests => c.requests
    case Status2xx => c.status2xx
    case Status4xx => c.status4xx
    case Status5xx => c.status5xx
    case PromptTok => c.promptTok
    case CachedTok => c.cachedTok
    case ComplTok => c.complTok
    case TotalTok => c.totalTok
    case ReqBytes => c.reqBytes
    case RespBytes => c.respBytes
    case RTSumMs => c.rtSumMs
    case FrtSumMs => c.frtSumMs
    case FrtN => c.frtN
  }

  // The summed counters that a delta line carries: all but the first-chunk ones.
  predicate Carried(f: Field) {
    f != FrtSumMs && f != FrtN
  }

  function Max(a: int, b: int): int {
    if a < b then b else a
  }

  /** `bucket.add`: sums, and the larger of the two peaks. */
  function Add(a: Counters, b: Counters): (r: Counters)
    ensures forall f :: Get(r, f) == Get(a, f) + Get(b, f)
    ensures r.rtMaxMs == Max(a.rtMaxMs, b.rtMaxMs) && r.frtMaxMs == Max(a.frtMaxMs, b.frtMaxMs)
  {
    Counters(
      a.requests + b.requests, a.status2xx + b.status2xx, a.status4xx + b.status4xx, a.status5xx + b.status5xx,
      a.promptTok + b.promptTok, a.cachedTok + b.cachedTok, a.complTok + b.complTok, a.totalTok + b.totalTok,
      a.reqBytes + b.reqBytes, a.respBytes + b.respBytes, a.rtSumMs + b.rtSumMs, Max(a.rtMaxMs, b.rtMaxMs),
      a.frtSumMs + b.frtSumMs, Max(a.frtMaxMs, b.frtMaxMs), a.frtN + b.frtN)
  }

  /** The delta line of a flush: differences, the current peak, and no first-chunk counters. */
  function Delta(cur: Counters, last: Counters): (r: Counters)
    ensures forall f :: Get(r, f) == if Carried(f) then Get(cur, f) - Get(last, f) else 0
    ensures r.rtMaxMs == cur.rtMaxMs
  {
    Counters(
      cur.requests - last.requests, cur.status2xx - last.status2xx,
      cur.status4xx - last.status4xx, cur.status5xx - last.status5xx,
      cur.promptTok - last.promptTok, cur.cachedTok - last.cachedTok,
      cur.complTok - last.complTok, cur.totalTok - last.totalTok,
      cur.reqBytes - last.reqBytes, cur.respBytes - last.respBytes,
      cur.rtSumMs - last.rtSumMs, cur.rtMaxMs, 0, 0, 0)
  }

  datatype Line = Line(key: Key, c: Counters)

  ghost function SumOf(lines: seq<Line>, k: Key, f: Field): int {
    if lines == [] then 0
    else
      var n := |lines| - 1;
      SumOf(lines[..n], k, f) + if lines[n].key == k then Get(lines[n].c, f) else 0
  }

  // The peak response time of a key; a bucket starts at 0, so no peak is below that.
  ghost function PeakOf(lines: seq<Line>, k: Key): int {
    if lines == [] then 0
    else
      var n := |lines| - 1;
      if lines[n].key == k then Max(PeakOf(lines[..n], k), lines[n].c.rtMaxMs) else PeakOf(lines[..n], k)
  }

  // No line takes requests away.
  ghost predicate Countable(lines: seq<Line>) {
    forall l :: l in lines ==> l.c.requests >= 0
  }

  lemma SumOfSnoc(lines: seq<Line>, l: Line, k: Key, f: Field)
    ensures SumOf(lines + [l], k, f) == SumOf(lines, k, f) + if l.key == k then Get(l.c, f) else 0
  {
    assert (lines + [l])[..|lines|] == lines;
  }

  lemma PeakOfSnoc(lines: seq<Line>, l: Line, k: Key)
    ensures PeakOf(lines + [l], k)
         == if l.key == k then Max(PeakOf(lines, k), l.c.rtMaxMs) else PeakOf(lines, k)
  {
    assert (lines + [l])[..|lines|] == lines;
  }

  lemma {:induction false} SumOfConcat(a: seq<Line>, b: seq<Line>, k: Key, f: Field)
    ensures SumOf(a + b, k, f) == SumOf(a, k, f) + SumOf(b, k, f)
  {
    if b == [] {
      assert a + b == a;
    } else {
      var n := |b| - 1;
      SumOfConcat(a, b[..n], k, f);
      assert a + b == (a + b[..n]) + [b[n]];
      SumOfSnoc(a + b[..n], b[n], k, f);
    }
  }

  lemma {:induction false} PeakOfConcat(a: seq<Line>, b: seq<Line>, k: Key)
    ensures PeakOf(b, k) >= 0 && PeakOf(a, k) >= 0
    ensures PeakOf(a + b, k) == Max(PeakOf(a, k), PeakOf(b, k))
    decreases |a| + |b|
  {
    if b == [] {
      assert a + b == a;
      if a != [] {
        PeakOfConcat(a[..|a| - 1], [], k);
      }
    } else {
      var n := |b| - 1;
      PeakOfConcat(a, b[..n], k);
      assert a + b == (a + b[..n]) + [b[n]];
      PeakOfSnoc(a + b[..n], b[n], k);
    }
  }

  // What was to be written is what is in the file and what was lost, in every sum and peak.
  ghost predicate Parts(all: seq<Line>, file: seq<Line>, lost: seq<Line>) {
    && (forall k, f :: SumOf(all, k, f) == SumOf(file, k, f) + SumOf(lost, k, f))
    && (forall k :: PeakOf(all, k) == Max(PeakOf(file, k), PeakOf(lost, k)))
    && (forall k :: FrtPeakOf(all, k) == Max(FrtPeakOf(file, k), FrtPeakOf(lost, k)))
  }

  lemma NothingLostYet(lines: seq<Line>)
    ensures Parts(lines, lines, [])
  {
    forall k
      ensures PeakOf(lines, k) == Max(PeakOf(lines, k), PeakOf([], k))
      ensures FrtPeakOf(lines, k) == Max(FrtPeakOf(lines, k), FrtPeakOf([], k))
    {
      PeakOfConcat(lines, [], k);
      FrtPeakOfConcat(lines, [], k);
      FrtPeakOfNothing(k);
    }
  }

  lemma PartsSnoc(all: seq<Line>, file: seq<Line>, lost: seq<Line>, l: Line)
    requires Parts(all, file, lost)
    ensures Parts(all + [l], file + [l], lost) && Parts(all + [l], file, lost + [l])
  {
    hide SumOf;
    hide PeakOf;
    forall k, f
      ensures SumOf(all + [l], k, f) == SumOf(file + [l], k, f) + SumOf(lost, k, f)
      ensures SumOf(all + [l], k, f) == SumOf(file, k, f) + SumOf(lost + [l], k, f)
    {
      SumOfSnoc(all, l, k, f);
      SumOfSnoc(file, l, k, f);
      SumOfSnoc(lost, l, k, f);
    }
    forall k
      ensures PeakOf(all + [l], k) == Max(PeakOf(file + [l], k), PeakOf(lost, k))
      ensures PeakOf(all + [l], k) == Max(PeakOf(file, k), PeakOf(lost + [l], k))
    {
      PeakOfSnoc(all, l, k);
      PeakOfSnoc(file, l, k);
      PeakOfSnoc(lost, l, k);
    }
    hide FrtPeakOf;
    forall k
      ensures FrtPeakOf(all + [l], k) == Max(FrtPeakOf(file + [l], k), FrtPeakOf(lost, k))
      ensures FrtPeakOf(all + [l], k) == Max(FrtPeakOf(file, k), FrtPeakOf(lost + [l], k))
    {
      FrtPeakOfSnoc(all, l, k);
      FrtPeakOfSnoc(file, l, k);
      FrtPeakOfSnoc(lost, l, k);
    }
  }

  // The same lines with the first-chunk peak as their peak.
  ghost function FirstChunks(lines: seq<Line>): seq<Line> {
    seq(|lines|, i requires 0 <= i < |lines| => Line(lines[i].key, lines[i].c.(rtMaxMs := lines[i].c.frtMaxMs)))
  }

  // The peak time to the first chunk of a key.
  ghost function FrtPeakOf(lines: seq<Line>, k: Key): int {
    PeakOf(FirstChunks(lines), k)
  }

  lemma FrtPeakOfSnoc(lines: seq<Line>, l: Line, k: Key)
    ensures FrtPeakOf(lines + [l], k)
         == if l.key == k then Max(FrtPeakOf(lines, k), l.c.frtMaxMs) else FrtPeakOf(lines, k)
  {
    var c := Line(l.key, l.c.(rtMaxMs := l.c.frtMaxMs));
    assert FirstChunks(lines + [l]) == FirstChunks(lines) + [c];
    PeakOfSnoc(FirstChunks(lines), c, k);
  }

  lemma FrtPeakOfConcat(a: seq<Line>, b: seq<Line>, k: Key)
    ensures FrtPeakOf(b, k) >= 0 && FrtPeakOf(a, k) >= 0
    ensures FrtPeakOf(a + b, k) == Max(FrtPeakOf(a, k), FrtPeakOf(b, k))
  {
    assert FirstChunks(a + b) == FirstChunks(a) + FirstChunks(b);
    PeakOfConcat(FirstChunks(a), FirstChunks(b), k);
  }

  lemma FrtPeakOfNothing(k: Key)
    ensures FrtPeakOf([], k) == 0
  {
    assert FirstChunks([]) == [];
  }

  ghost function LineKeys(lines: seq<Line>): set<Key> {
    set l | l in lines :: l.key
  }

  // The lines of one day's file: appends keep their order within it.
  function FileOf(lines: seq<Line>, dayOf: int -> int, day: int): seq<Line> {
    if lines == [] then []
    else
      var n := |lines| - 1;
      FileOf(lines[..n], dayOf, day) + if dayOf(lines[n].key.minute) == day then [lines[n]] else []
  }

  lemma FileOfSnoc(lines: seq<Line>, l: Line, dayOf: int -> int, day: int)
    ensures FileOf(lines + [l], dayOf, day)
         == if dayOf(l.key.minute) == day then FileOf(lines, dayOf, day) + [l] else FileOf(lines, dayOf, day)
  {
    assert (lines + [l])[..|lines|] == lines;
    assert FileOf(lines, dayOf, day) + [] == FileOf(lines, dayOf, day);
  }

  lemma {:induction false} FileOfSums(lines: seq<Line>, dayOf: int -> int, day: int, k: Key, f: Field)
    ensures SumOf(FileOf(lines, dayOf, day), k, f) == if dayOf(k.minute) == day then SumOf(lines, k, f) else 0
    ensures PeakOf(FileOf(lines, dayOf, day), k) == if dayOf(k.minute) == day then PeakOf(lines, k) else 0
  {
    if lines != [] {
      var before, l := lines[..|lines| - 1], lines[|lines| - 1];
      assert lines == before + [l];
      hide SumOf;
      hide PeakOf;
      hide FileOf;
      FileOfSums(before, dayOf, day, k, f);
      FileOfSnoc(before, l, dayOf, day);
      SumOfSnoc(before, l, k, f);
      PeakOfSnoc(before, l, k);
      SumOfSnoc(FileOf(before, dayOf, day), l, k, f);
      PeakOfSnoc(FileOf(before, dayOf, day), l, k);
    }
  }

  lemma {:induction false} FileOfMembers(lines: seq<Line>, dayOf: int -> int, day: int)
    ensures forall l :: l in FileOf(lines, dayOf, day) <==> l in lines && dayOf(l.key.minute) == day
  {
    if lines != [] {
      FileOfMembers(lines[..|lines| - 1], dayOf, day);
      assert lines == lines[..|lines| - 1] + [lines[|lines| - 1]];
    }
  }

  lemma {:induction false} SumOfNothing(lines: seq<Line>, k: Key, f: Field)
    requires forall l :: l in lines ==> l.key != k
    ensures SumOf(lines, k, f) == 0 && PeakOf(lines, k) == 0
  {
    if lines != [] {
      SumOfNothing(lines[..|lines| - 1], k, f);
      assert lines[|lines| - 1] in lines;
    }
  }

  // A removed line takes its counters with it, wherever it stood.
  lemma {:induction false} SumOfRemove(lines: seq<Line>, i: nat, k: Key, f: Field)
    requires i < |lines|
    ensures SumOf(lines, k, f)
         == SumOf(lines[..i] + lines[i + 1..], k, f) + if lines[i].key == k then Get(lines[i].c, f) else 0
  {
    SumOfConcat(lines[..i] + [lines[i]], lines[i + 1..], k, f);
    SumOfConcat(lines[..i], [lines[i]], k, f);
    SumOfConcat(lines[..i], lines[i + 1..], k, f);
    SumOfSnoc([], lines[i], k, f);
    assert [] + [lines[i]] == [lines[i]];
    assert lines == (lines[..i] + [lines[i]]) + lines[i + 1..];
  }

  lemma RemoveOne(lines: seq<Line>, i: nat)
    requires i < |lines|
    ensures multiset(lines[..i] + lines[i + 1..]) == multiset(lines) - multiset{lines[i]}
  {
    assert lines == lines[..i] + ([lines[i]] + lines[i + 1..]);
  }

  lemma SameRest(a: seq<Line>, b: seq<Line>, i: nat)
    requires a != [] && multiset(a) == multiset(b) && i < |b| && b[i] == a[|a| - 1]
    ensures multiset(a[..|a| - 1]) == multiset(b[..i] + b[i + 1..])
  {
    var last := |a| - 1;
    RemoveOne(b, i);
    RemoveOne(a, last);
    assert a[..last] + a[last + 1..] == a[..last];
  }

  /** Sums do not depend on the order of the lines. */
  lemma {:induction false} SumOfPermuted(a: seq<Line>, b: seq<Line>, k: Key, f: Field)
    requires multiset(a) == multiset(b)
    ensures SumOf(a, k, f) == SumOf(b, k, f)
    decreases |a|
  {
    if a == [] {
      assert |multiset(b)| == 0;
    } else {
      var last := |a| - 1;
      assert a[last] in multiset(a);
      assert a[last] in multiset(b) && a[last] in b;
      var i :| 0 <= i < |b| && b[i] == a[last];
      SameRest(a, b, i);
      SumOfRemove(b, i, k, f);
      SumOfPermuted(a[..last], b[..i] + b[i + 1..], k, f);
    }
  }
}
