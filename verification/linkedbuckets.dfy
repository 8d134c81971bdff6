/**
 The linked structures of the per-minute aggregator as one value, what must hold of them and of the
 log between any two steps, and that each step of an ingest or a flush keeps it.
 */
module LinkedBuckets {
  import opened MinuteCounters
  import opened Wrappers

  class Bucket {
    const key: Key
    var c: Counters

    constructor (key: Key)
      ensures this.key == key && c == ZERO
    {
      this.key := key;
      c := ZERO;
    }
  }

  predicate Ascending(bs: seq<Bucket>) {
    forall i, j :: 0 <= i < j < |bs| ==> bs[i].key.minute <= bs[j].key.minute
  }

  predicate Distinct(bs: seq<Bucket>) {
    forall i, j :: 0 <= i < j < |bs| ==> bs[i] != bs[j]
  }

  /** `sort.Search` over the archive: the first position at or after the minute. */
  method SearchMinute(bs: seq<Bucket>, minute: int) returns (lo: nat)
    requires Ascending(bs)
    ensures lo <= |bs|
    ensures forall i :: 0 <= i < lo ==> bs[i].key.minute < minute
    ensures forall i :: lo <= i < |bs| ==> bs[i].key.minute >= minute
  {
    lo := 0;
    var hi := |bs|;
    while lo < hi
      invariant 0 <= lo <= hi <= |bs|
      invariant forall i :: 0 <= i < lo ==> bs[i].key.minute < minute
      invariant forall i :: hi <= i < |bs| ==> bs[i].key.minute >= minute
    {
      var mid := (lo + hi) / 2;
      if bs[mid].key.minute >= minute {
        hi := mid;
      } else {
        lo := mid + 1;
      }
    }
  }

  /** Insertion that keeps a sorted archive sorted and adds exactly the new bucket. */
  method InsertByMinute(bs: seq<Bucket>, b: Bucket) returns (r: seq<Bucket>)
    requires Ascending(bs) && Distinct(bs) && b !in bs
    ensures Ascending(r) && Distinct(r)
    ensures forall x :: x in r <==> x == b || x in bs
  {
    var at := SearchMinute(bs, b.key.minute);
    r := bs[..at] + [b] + bs[at..];
    assert bs == bs[..at] + bs[at..];
  }

  /** `sort.Slice` by minute, as repeated insertion. */
  method SortByMinute(bs: seq<Bucket>) returns (r: seq<Bucket>)
    requires Distinct(bs)
    ensures Ascending(r) && Distinct(r)
    ensures forall x :: x in r <==> x in bs
  {
    r := [];
    for i := 0 to |bs|
      invariant Ascending(r) && Distinct(r)
      invariant forall x :: x in r <==> x in bs[..i]
    {
      assert bs[..i + 1] == bs[..i] + [bs[i]];
      r := InsertByMinute(r, bs[i]);
    }
    assert bs[..|bs|] == bs;
  }


  // ── The linked structures as one value ──

  // A two-level map (minute -> (peer, stream) -> bucket) is kept as the set of its minutes and a flat
  // map over keys. `content` holds the counters on each bucket; `reloaded` are the buckets a reload
  // built and no flush has written since, with what they held then; `evicted` are the minutes that
  // were dropped, or that the log held at start-up and no reload brought back.
  datatype Shape = Shape(
    openMinutes: set<int>, active: map<Key, Bucket>,
    archive: seq<Bucket>, archiveMinutes: set<int>, archiveIdx: map<Key, Bucket>,
    dirty: set<Bucket>, lastWritten: map<Bucket, Counters>,
    reloaded: map<Bucket, Counters>, content: map<Bucket, Counters>, evicted: set<int>)
  {
    /** No minute is both open and archived; each key has one bucket; index and archive agree. */
    ghost predicate Indexed() {
      && openMinutes !! archiveMinutes
      && (forall k :: k in active ==> k.minute in openMinutes && active[k] in content && active[k].key == k)
      && (forall k :: k in archiveIdx ==> k.minute in archiveMinutes && archiveIdx[k] in archive && archiveIdx[k].key == k)
      && (forall b :: b in archive ==> b in content && b.key in archiveIdx && archiveIdx[b.key] == b)
      && Distinct(archive)
    }

    ghost function Content(b: Bucket): Counters {
      if b in content then content[b] else ZERO
    }

    // What a delta is taken against: a reloaded bucket has no entry.
    ghost function Last(b: Bucket): Counters {
      if b in lastWritten then lastWritten[b] else ZERO
    }

    // What the log is known to hold of an archived bucket.
    ghost function Accounted(b: Bucket): Counters {
      if b in lastWritten then lastWritten[b] else if b in reloaded then reloaded[b] else ZERO
    }

    ghost predicate Grown(b: Bucket) {
      Last(b).requests < Content(b).requests
    }

    ghost predicate Clean(b: Bucket, log: seq<Line>) {
      && Last(b).requests <= Content(b).requests
      && Content(b) == Accounted(b)
      && Content(b).rtMaxMs <= PeakOf(log, b.key)
    }

    ghost predicate Settles(b: Bucket, log: seq<Line>) {
      if b in dirty then Grown(b) else Clean(b, log)
    }

    /** Only dirty buckets hold something the log lacks. */
    ghost predicate Settled(log: seq<Line>) {
      && (forall b :: b in dirty ==> b in archive)
      && (forall b :: b in lastWritten ==> b in archive && b !in reloaded)
      && (forall b :: b in reloaded ==> b in archive)
      && (forall b :: b in archive ==> Settles(b, log))
    }

    // ── the books ──

    ghost function Unwritten(k: Key, f: Field): int {
      if k in active then Get(Content(active[k]), f)
      else if k in archiveIdx && Carried(f) then
        Get(Content(archiveIdx[k]), f) - Get(Accounted(archiveIdx[k]), f)
      else 0
    }

    ghost function LivePeak(k: Key): int {
      if k in active then Max(0, Content(active[k]).rtMaxMs)
      else if k in archiveIdx then Max(0, Content(archiveIdx[k]).rtMaxMs)
      else 0
    }

    ghost predicate SumAgrees(log: seq<Line>, h: History, k: Key, f: Field) {
      SumOf(log, k, f) + Unwritten(k, f) == h.Due(k, f)
    }

    ghost predicate PeakAgrees(log: seq<Line>, h: History, k: Key) {
      Max(PeakOf(log, k), LivePeak(k)) == h.Peak(k)
    }

    /** Log plus unwritten equals everything ingested, for every key and every counter. */
    ghost predicate Balanced(log: seq<Line>, h: History) {
      && (forall k, f :: SumAgrees(log, h, k, f))
      && (forall k :: PeakAgrees(log, h, k))
    }

    // What the log holds of a key that was never dropped.
    ghost function Held(k: Key, f: Field): int {
      if k !in active && k in archiveIdx then Get(Accounted(archiveIdx[k]), f) else 0
    }

    ghost predicate HeldAgrees(log: seq<Line>, h: History, k: Key, f: Field) {
      Carried(f) && k.minute !in evicted ==> SumOf(log, k, f) == Held(k, f) + SumOf(h.overcount, k, f)
    }

    /** The log holds the archived buckets of every minute never dropped, and nothing of open ones. */
    ghost predicate Replayable(log: seq<Line>, h: History) {
      forall k, f :: HeldAgrees(log, h, k, f)
    }

    // What the next flush counts again of a key: what its reloaded bucket held, once it is dirty.
    ghost function RecountOf(k: Key, f: Field): int {
      if k in archiveIdx && archiveIdx[k] in dirty && archiveIdx[k] in reloaded then
        Get(Delta(reloaded[archiveIdx[k]], ZERO), f)
      else 0
    }

    ghost function LiveFrtPeak(k: Key): int {
      if k in active then Max(0, Content(active[k]).frtMaxMs) else 0
    }

    ghost predicate FrtAgrees(log: seq<Line>, h: History, k: Key) {
      Max(FrtPeakOf(log, k), LiveFrtPeak(k)) == h.FrtPeak(k)
    }

    /** The log has the first-chunk peaks of everything that reached an open minute, and counts none again. */
    ghost predicate FirstChunksKept(log: seq<Line>, h: History) {
      && (forall k :: FrtAgrees(log, h, k))
      && (forall l :: l in h.overcount ==> NoFirstChunk(l.c))
    }

    ghost predicate Consistent(log: seq<Line>, h: History) {
      Indexed() && Settled(log) && Balanced(log, h) && Replayable(log, h) && FirstChunksKept(log, h)
    }
  }

  ghost predicate Positive(content: map<Bucket, Counters>) {
    forall b :: b in content ==> content[b].requests >= 0
  }

  predicate NoFirstChunk(c: Counters) {
    c.frtSumMs == 0 && c.frtN == 0 && c.frtMaxMs == 0
  }

  ghost function Since(minutes: set<int>, cutoff: int): set<int> {
    set m | m in minutes && m >= cutoff
  }

  // What has come in: the log the process started from, the entries that reached an open minute, the
  // late ones that reached an archived minute, and what flushes wrote again because of a reload.
  datatype History = History(carry: seq<Line>, early: seq<Line>, late: seq<Line>, overcount: seq<Line>)
  {
    // Everything ingested; for the first-chunk counters, everything that reached an open minute.
    ghost function Due(k: Key, f: Field): int {
      SumOf(carry, k, f) + SumOf(overcount, k, f) + SumOf(early, k, f) + if Carried(f) then SumOf(late, k, f) else 0
    }

    ghost function Peak(k: Key): int {
      Max(PeakOf(carry, k), Max(PeakOf(early, k), PeakOf(late, k)))
    }

    // The first-chunk peak of everything that reached an open minute.
    ghost function FrtPeak(k: Key): int {
      Max(FrtPeakOf(carry, k), FrtPeakOf(early, k))
    }

    ghost predicate SameIntake(h: History) {
      carry == h.carry && early == h.early && late == h.late
    }

    ghost function Take(l: Line, isLate: bool): History {
      if isLate then this.(late := late + [l]) else this.(early := early + [l])
    }
  }

  // ── An entry of an open or new minute ──

  ghost function PlacedOpen(s: Shape, b: Bucket, d: Counters): Shape {
    s.(openMinutes := s.openMinutes + {b.key.minute}, active := s.active[b.key := b],
       content := s.content[b := Add(s.Content(b), d)])
  }

  ghost predicate GoesOpen(s: Shape, b: Bucket) {
    && b.key.minute !in s.archiveMinutes
    && if b.key in s.active then b == s.active[b.key] else b !in s.content
  }

  lemma PlacedOpenIndexed(s: Shape, b: Bucket, d: Counters)
    requires s.Indexed() && GoesOpen(s, b)
    ensures b !in s.archive
    ensures PlacedOpen(s, b, d).Indexed()
  {
  }

  lemma PlacedOpenSettled(s: Shape, b: Bucket, d: Counters, log: seq<Line>)
    requires s.Settled(log) && b !in s.archive
    ensures PlacedOpen(s, b, d).Settled(log)
  {
    var t := PlacedOpen(s, b, d);
    forall x | x in t.archive
      ensures t.Settles(x, log)
    {
      assert s.Settles(x, log);
    }
  }

  // One more line taken in, and as much more unwritten under its key: the books still balance.
  lemma TakenBalances(s: Shape, t: Shape, log: seq<Line>, h: History, l: Line, late: bool)
    requires s.Balanced(log, h)
    requires forall k, f ::
        t.Unwritten(k, f) == s.Unwritten(k, f) + if k == l.key && (Carried(f) || !late) then Get(l.c, f) else 0
    requires forall k :: t.LivePeak(k) == if k == l.key then Max(s.LivePeak(k), l.c.rtMaxMs) else s.LivePeak(k)
    ensures t.Balanced(log, h.Take(l, late))
  {
    hide SumOf;
    hide PeakOf;
    hide Shape.Unwritten;
    hide Shape.LivePeak;
    forall k, f
      ensures t.SumAgrees(log, h.Take(l, late), k, f)
    {
      assert s.SumAgrees(log, h, k, f);
      SumOfSnoc(h.early, l, k, f);
      SumOfSnoc(h.late, l, k, f);
    }
    forall k
      ensures t.PeakAgrees(log, h.Take(l, late), k)
    {
      assert s.PeakAgrees(log, h, k);
      PeakOfSnoc(h.early, l, k);
      PeakOfSnoc(h.late, l, k);
    }
  }

  // The log and what it is known to hold move together.
  lemma HeldStep(s: Shape, t: Shape, log: seq<Line>, lines: seq<Line>, h: History, h': History, extra: seq<Line>)
    requires s.Replayable(log, h) && s.evicted <= t.evicted && h'.overcount == h.overcount + extra
    requires forall k: Key, f: Field :: Carried(f) && k.minute !in t.evicted ==>
        t.Held(k, f) + SumOf(extra, k, f) == s.Held(k, f) + SumOf(lines, k, f)
    ensures t.Replayable(log + lines, h')
  {
    forall k, f
      ensures t.HeldAgrees(log + lines, h', k, f)
    {
      assert s.HeldAgrees(log, h, k, f);
      SumOfConcat(log, lines, k, f);
      SumOfConcat(h.overcount, extra, k, f);
    }
  }

  lemma HeldUnchanged(s: Shape, t: Shape, log: seq<Line>, h: History, h': History)
    requires s.Replayable(log, h) && s.evicted <= t.evicted && h'.overcount == h.overcount
    requires forall k: Key, f: Field :: Carried(f) && k.minute !in t.evicted ==> t.Held(k, f) == s.Held(k, f)
    ensures t.Replayable(log, h')
  {
    HeldStep(s, t, log, [], h, h', []);
    assert log + [] == log && h.overcount + [] == h.overcount;
  }

  lemma FirstChunksUnchanged(s: Shape, t: Shape, log: seq<Line>, h: History, h': History)
    requires s.FirstChunksKept(log, h) && forall k :: t.LiveFrtPeak(k) == s.LiveFrtPeak(k)
    requires h'.carry == h.carry && h'.early == h.early && h'.overcount == h.overcount
    ensures t.FirstChunksKept(log, h')
  {
    forall k
      ensures t.FrtAgrees(log, h', k)
    {
      assert s.FrtAgrees(log, h, k);
    }
  }

  lemma PlacedOpenFirstChunks(s: Shape, b: Bucket, d: Counters, log: seq<Line>, h: History)
    requires s.Indexed() && GoesOpen(s, b) && s.FirstChunksKept(log, h)
    ensures PlacedOpen(s, b, d).FirstChunksKept(log, h.Take(Line(b.key, d), false))
  {
    var t, h' := PlacedOpen(s, b, d), h.Take(Line(b.key, d), false);
    forall k
      ensures t.FrtAgrees(log, h', k)
    {
      assert s.FrtAgrees(log, h, k);
      FrtPeakOfSnoc(h.early, Line(b.key, d), k);
      FrtPeakOfConcat(h.early, log, k);
    }
  }

  lemma PlacedOpenBalanced(s: Shape, b: Bucket, d: Counters, log: seq<Line>, h: History)
    requires s.Indexed() && GoesOpen(s, b) && s.Balanced(log, h)
    ensures PlacedOpen(s, b, d).Balanced(log, h.Take(Line(b.key, d), false))
  {
    var t := PlacedOpen(s, b, d);
    TakenBalances(s, t, log, h, Line(b.key, d), false);
  }

  /** Charging an open or new minute keeps everything. */
  lemma PlacedOpenConsistent(s: Shape, b: Bucket, d: Counters, log: seq<Line>, h: History)
    requires s.Consistent(log, h) && GoesOpen(s, b)
    ensures PlacedOpen(s, b, d).Consistent(log, h.Take(Line(b.key, d), false))
  {
    PlacedOpenIndexed(s, b, d);
    PlacedOpenSettled(s, b, d, log);
    PlacedOpenBalanced(s, b, d, log, h);
    HeldUnchanged(s, PlacedOpen(s, b, d), log, h, h.Take(Line(b.key, d), false));
    PlacedOpenFirstChunks(s, b, d, log, h);
  }

  // ── A late entry ──

  ghost function PlacedLate(s: Shape, b: Bucket, d: Counters, arch: seq<Bucket>): Shape {
    s.(archive := arch, archiveIdx := s.archiveIdx[b.key := b], dirty := s.dirty + {b},
       content := s.content[b := Add(s.Content(b), d)])
  }

  ghost predicate GoesLate(s: Shape, b: Bucket, arch: seq<Bucket>) {
    && b.key.minute in s.archiveMinutes
    && (if b.key in s.archiveIdx then b == s.archiveIdx[b.key] else b !in s.content)
    && Distinct(arch)
    && (forall x :: x in arch ==> x in s.archive || x == b)
    && (forall x :: x in s.archive ==> x in arch)
    && b in arch
  }

  lemma PlacedLateIndexed(s: Shape, b: Bucket, d: Counters, arch: seq<Bucket>)
    requires s.Indexed() && GoesLate(s, b, arch)
    ensures PlacedLate(s, b, d, arch).Indexed()
  {
  }

  lemma PlacedLateSettled(s: Shape, b: Bucket, d: Counters, arch: seq<Bucket>, log: seq<Line>)
    requires s.Indexed() && s.Settled(log) && GoesLate(s, b, arch) && d.requests > 0
    ensures PlacedLate(s, b, d, arch).Settled(log)
  {
    var t := PlacedLate(s, b, d, arch);
    forall x | x in t.archive
      ensures t.Settles(x, log)
    {
      assert x in s.archive ==> s.Settles(x, log);
    }
  }

  lemma GetZero(f: Field)
    ensures Get(ZERO, f) == 0
  {
  }

  lemma PlacedLateAt(s: Shape, b: Bucket, d: Counters, arch: seq<Bucket>, k: Key, f: Field)
    requires k == b.key ==> k !in s.active
    requires k == b.key && k in s.archiveIdx ==> s.archiveIdx[k] == b
    requires k == b.key && k !in s.archiveIdx ==> s.Content(b) == ZERO && s.Accounted(b) == ZERO
    requires k != b.key && k in s.archiveIdx ==> s.archiveIdx[k] != b
    requires k != b.key && k in s.active ==> s.active[k] != b
    ensures PlacedLate(s, b, d, arch).Unwritten(k, f)
         == s.Unwritten(k, f) + if k == b.key && Carried(f) then Get(d, f) else 0
  {
    hide Get;
    assert Get(ZERO, f) == 0 by {
      GetZero(f);
    }
  }

  lemma PlacedLateUnwritten(s: Shape, b: Bucket, d: Counters, arch: seq<Bucket>, k: Key, f: Field)
    requires s.Indexed() && GoesLate(s, b, arch)
    requires b in s.lastWritten || b in s.reloaded ==> b in s.archive
    ensures PlacedLate(s, b, d, arch).Unwritten(k, f)
         == s.Unwritten(k, f) + if k == b.key && Carried(f) then Get(d, f) else 0
  {
    PlacedLateAt(s, b, d, arch, k, f);
  }

  lemma PlacedLateBalanced(s: Shape, b: Bucket, d: Counters, arch: seq<Bucket>, log: seq<Line>, h: History)
    requires s.Indexed() && s.Settled(log) && GoesLate(s, b, arch) && s.Balanced(log, h)
    ensures PlacedLate(s, b, d, arch).Balanced(log, h.Take(Line(b.key, d), true))
  {
    var t := PlacedLate(s, b, d, arch);
    forall k, f
      ensures t.Unwritten(k, f) == s.Unwritten(k, f) + if k == b.key && Carried(f) then Get(d, f) else 0
    {
      PlacedLateUnwritten(s, b, d, arch, k, f);
    }
    TakenBalances(s, t, log, h, Line(b.key, d), true);
  }

  lemma PlacedLateHeld(s: Shape, b: Bucket, d: Counters, arch: seq<Bucket>)
    requires s.Indexed() && GoesLate(s, b, arch)
    requires b in s.lastWritten || b in s.reloaded ==> b in s.archive
    ensures forall k, f :: PlacedLate(s, b, d, arch).Held(k, f) == s.Held(k, f)
  {
    assert b !in s.content ==> s.Accounted(b) == ZERO;
  }

  lemma PlacedLateFirstChunks(s: Shape, b: Bucket, d: Counters, arch: seq<Bucket>)
    requires s.Indexed() && GoesLate(s, b, arch)
    ensures forall k :: PlacedLate(s, b, d, arch).LiveFrtPeak(k) == s.LiveFrtPeak(k)
  {
  }

  /** Charging an archived minute keeps everything, with the bucket now dirty. */
  lemma PlacedLateConsistent(s: Shape, b: Bucket, d: Counters, arch: seq<Bucket>, log: seq<Line>, h: History)
    requires s.Consistent(log, h) && GoesLate(s, b, arch) && d.requests > 0
    ensures PlacedLate(s, b, d, arch).Consistent(log, h.Take(Line(b.key, d), true))
  {
    PlacedLateIndexed(s, b, d, arch);
    PlacedLateSettled(s, b, d, arch, log);
    PlacedLateBalanced(s, b, d, arch, log, h);
    PlacedLateHeld(s, b, d, arch);
    HeldUnchanged(s, PlacedLate(s, b, d, arch), log, h, h.Take(Line(b.key, d), true));
    PlacedLateFirstChunks(s, b, d, arch);
    FirstChunksUnchanged(s, PlacedLate(s, b, d, arch), log, h, h.Take(Line(b.key, d), true));
  }

  // ── Closing a minute ──

  // The open buckets of minute `m`, each with a full line and a last-written copy.
  ghost predicate MovesMinute(s: Shape, m: int, ptrs: seq<Bucket>, snap: map<Bucket, Counters>) {
    && m in s.openMinutes
    && Distinct(ptrs)
    && (forall b :: b in ptrs ==> b.key.minute == m && b.key in s.active && s.active[b.key] == b)
    && (forall k :: k in s.active && k.minute == m ==> s.active[k] in ptrs)
    && (forall b :: b in ptrs ==> b in snap)
    && (forall b :: b in snap ==> b in ptrs && snap[b] == s.Content(b))
  }

  ghost predicate WritesMinute(s: Shape, m: int, lines: seq<Line>) {
    && (forall k, f :: SumOf(lines, k, f) == if Closing(s, m, k) then Get(s.Content(s.active[k]), f) else 0)
    && (forall k :: PeakOf(lines, k) == if Closing(s, m, k) then Max(0, s.Content(s.active[k]).rtMaxMs) else 0)
    && (forall k :: FrtPeakOf(lines, k) == if Closing(s, m, k) then s.LiveFrtPeak(k) else 0)
  }

  ghost predicate Closing(s: Shape, m: int, k: Key) {
    k.minute == m && k in s.active
  }

  // The lines written so far, of a minute whose keys in `todo` are still to come.
  ghost predicate WritesAllBut(s: Shape, m: int, todo: set<Key>, lines: seq<Line>) {
    && (forall k, f ::
          SumOf(lines, k, f) == if Closing(s, m, k) && k !in todo then Get(s.Content(s.active[k]), f) else 0)
    && (forall k ::
          PeakOf(lines, k) == if Closing(s, m, k) && k !in todo then Max(0, s.Content(s.active[k]).rtMaxMs) else 0)
    && (forall k :: FrtPeakOf(lines, k) == if Closing(s, m, k) && k !in todo then s.LiveFrtPeak(k) else 0)
  }

  lemma WritesNothing(s: Shape, m: int, todo: set<Key>)
    requires forall k :: Closing(s, m, k) ==> k in todo
    ensures WritesAllBut(s, m, todo, [])
  {
    forall k
      ensures FrtPeakOf([], k) == 0
    {
      FrtPeakOfNothing(k);
    }
  }

  lemma WritesOneMore(s: Shape, m: int, todo: set<Key>, lines: seq<Line>, k: Key)
    requires WritesAllBut(s, m, todo, lines) && k in todo && Closing(s, m, k)
    ensures WritesAllBut(s, m, todo - {k}, lines + [Line(k, s.Content(s.active[k]))])
  {
    hide SumOf;
    hide PeakOf;
    hide Get;
    var l := Line(k, s.Content(s.active[k]));
    forall j, f {
      SumOfSnoc(lines, l, j, f);
    }
    forall j {
      PeakOfSnoc(lines, l, j);
    }
    hide FrtPeakOf;
    forall j {
      FrtPeakOfSnoc(lines, l, j);
    }
  }

  function OfMinute(m: map<Key, Bucket>, minute: int): map<Key, Bucket> {
    map k | k in m && k.minute == minute :: m[k]
  }

  function ExceptMinutes(m: map<Key, Bucket>, minutes: set<int>): map<Key, Bucket> {
    map k | k in m && k.minute !in minutes :: m[k]
  }

  ghost function MinuteClosed(s: Shape, m: int, ptrs: seq<Bucket>, snap: map<Bucket, Counters>): Shape {
    s.(openMinutes := s.openMinutes - {m}, active := ExceptMinutes(s.active, {m}),
       archive := s.archive + ptrs, archiveMinutes := s.archiveMinutes + {m},
       archiveIdx := s.archiveIdx + OfMinute(s.active, m),
       lastWritten := s.lastWritten + snap)
  }

  lemma DistinctConcat(xs: seq<Bucket>, ys: seq<Bucket>)
    requires Distinct(xs) && Distinct(ys) && forall b :: b in ys ==> b !in xs
    ensures Distinct(xs + ys)
  {
    forall i, j | 0 <= i < j < |xs + ys|
      ensures (xs + ys)[i] != (xs + ys)[j]
    {
      if i < |xs| <= j {
        assert ys[j - |xs|] in ys;
      }
    }
  }

  lemma MinuteClosedIndexed(s: Shape, m: int, ptrs: seq<Bucket>, snap: map<Bucket, Counters>)
    requires s.Indexed() && MovesMinute(s, m, ptrs, snap)
    ensures forall b :: b in ptrs ==> b !in s.archive
    ensures MinuteClosed(s, m, ptrs, snap).Indexed()
  {
    DistinctConcat(s.archive, ptrs);
  }

  lemma MinuteClosedSettled(s: Shape, m: int, ptrs: seq<Bucket>, snap: map<Bucket, Counters>, lines: seq<Line>,
                            log: seq<Line>)
    requires s.Settled(log) && MovesMinute(s, m, ptrs, snap)
    requires forall b :: b in ptrs ==> b !in s.archive && s.Content(b).rtMaxMs <= PeakOf(lines, b.key)
    ensures MinuteClosed(s, m, ptrs, snap).Settled(log + lines)
  {
    var t := MinuteClosed(s, m, ptrs, snap);
    forall x | x in t.archive
      ensures t.Settles(x, log + lines)
    {
      if x in s.archive {
        assert x !in ptrs && s.Settles(x, log);
      }
      MinuteClosedSettles(s, m, ptrs, snap, lines, log, x);
    }
  }

  // An archived bucket is as settled as before, and a closing one has just been written.
  lemma MinuteClosedSettles(s: Shape, m: int, ptrs: seq<Bucket>, snap: map<Bucket, Counters>, lines: seq<Line>,
                            log: seq<Line>, x: Bucket)
    requires if x in snap then snap[x] == s.Content(x) && x !in s.dirty else s.Settles(x, log)
    requires x in snap ==> s.Content(x).rtMaxMs <= PeakOf(lines, x.key)
    ensures MinuteClosed(s, m, ptrs, snap).Settles(x, log + lines)
  {
    PeakOfConcat(log, lines, x.key);
  }

  // What the log gains is exactly what stops being unwritten: the books still balance.
  lemma WrittenBalances(s: Shape, t: Shape, log: seq<Line>, lines: seq<Line>, h: History, extra: seq<Line>)
    requires s.Balanced(log, h)
    requires forall k, f :: t.Unwritten(k, f) + SumOf(lines, k, f) == s.Unwritten(k, f) + SumOf(extra, k, f)
    requires forall k :: Max(t.LivePeak(k), PeakOf(lines, k)) == s.LivePeak(k)
    ensures t.Balanced(log + lines, h.(overcount := h.overcount + extra))
  {
    var h' := h.(overcount := h.overcount + extra);
    forall k, f
      ensures t.SumAgrees(log + lines, h', k, f)
    {
      assert s.SumAgrees(log, h, k, f);
      SumOfConcat(log, lines, k, f);
      SumOfConcat(h.overcount, extra, k, f);
    }
    forall k
      ensures t.PeakAgrees(log + lines, h', k)
    {
      assert s.PeakAgrees(log, h, k);
      PeakOfConcat(log, lines, k);
    }
  }

  // At one key: a closing bucket has been written, everything else is as unwritten as before.
  lemma MinuteClosedAt(s: Shape, m: int, ptrs: seq<Bucket>, snap: map<Bucket, Counters>, k: Key, f: Field)
    requires Closing(s, m, k) ==> s.active[k] in snap && snap[s.active[k]] == s.Content(s.active[k])
    requires k in s.archiveIdx ==> s.archiveIdx[k] !in snap
    ensures MinuteClosed(s, m, ptrs, snap).Unwritten(k, f) == if Closing(s, m, k) then 0 else s.Unwritten(k, f)
    ensures MinuteClosed(s, m, ptrs, snap).LivePeak(k) == s.LivePeak(k)
  {
    hide Get;
  }

  lemma MinuteClosedHeldAt(s: Shape, m: int, ptrs: seq<Bucket>, snap: map<Bucket, Counters>, k: Key, f: Field)
    requires Closing(s, m, k) ==>
      k !in s.archiveIdx && s.active[k] in snap && snap[s.active[k]] == s.Content(s.active[k])
    requires k in s.archiveIdx ==> s.archiveIdx[k] !in snap
    ensures MinuteClosed(s, m, ptrs, snap).Held(k, f)
         == s.Held(k, f) + if Closing(s, m, k) then Get(s.Content(s.active[k]), f) else 0
  {
    hide Get;
  }

  lemma MinuteClosedHeld(s: Shape, m: int, ptrs: seq<Bucket>, snap: map<Bucket, Counters>, k: Key, f: Field)
    requires s.Indexed() && MovesMinute(s, m, ptrs, snap)
    requires forall b :: b in ptrs ==> b !in s.archive
    ensures MinuteClosed(s, m, ptrs, snap).Held(k, f)
         == s.Held(k, f) + if Closing(s, m, k) then Get(s.Content(s.active[k]), f) else 0
  {
    MinuteClosedHeldAt(s, m, ptrs, snap, k, f);
  }

  lemma MinuteClosedUnwritten(s: Shape, m: int, ptrs: seq<Bucket>, snap: map<Bucket, Counters>, k: Key, f: Field)
    requires s.Indexed() && MovesMinute(s, m, ptrs, snap)
    requires forall b :: b in ptrs ==> b !in s.archive
    ensures MinuteClosed(s, m, ptrs, snap).Unwritten(k, f) == if Closing(s, m, k) then 0 else s.Unwritten(k, f)
    ensures MinuteClosed(s, m, ptrs, snap).LivePeak(k) == s.LivePeak(k)
  {
    MinuteClosedAt(s, m, ptrs, snap, k, f);
  }

  lemma MinuteClosedBalanced(s: Shape, m: int, ptrs: seq<Bucket>, snap: map<Bucket, Counters>, lines: seq<Line>,
                             log: seq<Line>, h: History)
    requires s.Indexed() && s.Balanced(log, h) && MovesMinute(s, m, ptrs, snap) && WritesMinute(s, m, lines)
    requires forall b :: b in ptrs ==> b !in s.archive
    ensures MinuteClosed(s, m, ptrs, snap).Balanced(log + lines, h)
  {
    var t := MinuteClosed(s, m, ptrs, snap);
    forall k, f
      ensures t.Unwritten(k, f) + SumOf(lines, k, f) == s.Unwritten(k, f) + SumOf([], k, f)
    {
      MinuteClosedUnwritten(s, m, ptrs, snap, k, f);
    }
    forall k
      ensures Max(t.LivePeak(k), PeakOf(lines, k)) == s.LivePeak(k)
    {
      MinuteClosedUnwritten(s, m, ptrs, snap, k, Requests);
    }
    WrittenBalances(s, t, log, lines, h, []);
    assert h.overcount + [] == h.overcount;
  }

  lemma MinuteClosedFirstChunks(s: Shape, m: int, ptrs: seq<Bucket>, snap: map<Bucket, Counters>, lines: seq<Line>,
                                log: seq<Line>, h: History)
    requires s.FirstChunksKept(log, h) && WritesMinute(s, m, lines)
    ensures MinuteClosed(s, m, ptrs, snap).FirstChunksKept(log + lines, h)
  {
    var t := MinuteClosed(s, m, ptrs, snap);
    forall k
      ensures t.FrtAgrees(log + lines, h, k)
    {
      assert s.FrtAgrees(log, h, k);
      FrtPeakOfConcat(log, lines, k);
    }
  }

  /** Closing one minute keeps everything. */
  lemma MinuteClosedConsistent(s: Shape, m: int, ptrs: seq<Bucket>, snap: map<Bucket, Counters>, lines: seq<Line>,
                               log: seq<Line>, h: History)
    requires s.Consistent(log, h) && MovesMinute(s, m, ptrs, snap) && WritesMinute(s, m, lines)
    ensures MinuteClosed(s, m, ptrs, snap).Consistent(log + lines, h)
  {
    MinuteClosedIndexed(s, m, ptrs, snap);
    forall b | b in ptrs
      ensures s.Content(b).rtMaxMs <= PeakOf(lines, b.key)
    {
      assert Closing(s, m, b.key);
    }
    MinuteClosedSettled(s, m, ptrs, snap, lines, log);
    MinuteClosedBalanced(s, m, ptrs, snap, lines, log, h);
    forall k, f
      ensures MinuteClosed(s, m, ptrs, snap).Held(k, f) + SumOf([], k, f) == s.Held(k, f) + SumOf(lines, k, f)
    {
      MinuteClosedHeld(s, m, ptrs, snap, k, f);
    }
    HeldStep(s, MinuteClosed(s, m, ptrs, snap), log, lines, h, h, []);
    MinuteClosedFirstChunks(s, m, ptrs, snap, lines, log, h);
  }

  lemma MinuteClosedKeeps(s: Shape, m: int, ptrs: seq<Bucket>, snap: map<Bucket, Counters>, log: seq<Line>, h: History)
    requires s.Consistent(log, h) && MovesMinute(s, m, ptrs, snap)
    ensures Keeps(s.archiveIdx, MinuteClosed(s, m, ptrs, snap).archiveIdx)
  {
  }

  // Neither says anything of the archive.
  lemma MovesWithAnyArchive(s: Shape, arch: seq<Bucket>, m: int, ptrs: seq<Bucket>, snap: map<Bucket, Counters>,
                            lines: seq<Line>)
    requires MovesMinute(s, m, ptrs, snap) && WritesMinute(s, m, lines)
    ensures MovesMinute(s.(archive := arch), m, ptrs, snap) && WritesMinute(s.(archive := arch), m, lines)
  {
    var s' := s.(archive := arch);
    assert forall k :: s'.Content(k) == s.Content(k);
    assert forall k :: Closing(s', m, k) <==> Closing(s, m, k);
  }

  lemma MinuteMovedConsistent(s: Shape, t: Shape, arch: seq<Bucket>, m: int, ptrs: seq<Bucket>, snap: map<Bucket, Counters>,
                              lines: seq<Line>, log: seq<Line>, h: History)
    requires MovesMinute(s, m, ptrs, snap) && WritesMinute(s, m, lines)
    requires t == MinuteClosed(s, m, ptrs, snap).(archive := s.archive)
    requires s.(archive := arch).Consistent(log, h)
    ensures t.(archive := arch + ptrs).Consistent(log + lines, h)
    ensures Keeps(s.archiveIdx, t.archiveIdx)
  {
    hide Shape.Consistent;
    hide MovesMinute;
    hide WritesMinute;
    hide Keeps;
    var s' := s.(archive := arch);
    MovesWithAnyArchive(s, arch, m, ptrs, snap, lines);
    MinuteClosedConsistent(s', m, ptrs, snap, lines, log, h);
    MinuteClosedKeeps(s', m, ptrs, snap, log, h);
    assert t.(archive := arch + ptrs) == MinuteClosed(s', m, ptrs, snap);
  }

  // The order of the archive is not part of what has to stay consistent.
  lemma ReorderedConsistent(s: Shape, arch: seq<Bucket>, log: seq<Line>, h: History)
    requires s.Consistent(log, h) && Distinct(arch)
    requires forall b :: b in arch ==> b in s.archive
    requires forall b :: b in s.archive ==> b in arch
    ensures s.(archive := arch).Consistent(log, h)
  {
    var t := s.(archive := arch);
    assert t.Settled(log) by {
      forall x | x in arch
        ensures t.Settles(x, log)
      {
        assert s.Settles(x, log);
      }
    }
    assert t.Balanced(log, h) by {
      forall k, f
        ensures t.SumAgrees(log, h, k, f)
      {
        assert s.SumAgrees(log, h, k, f);
      }
      forall k
        ensures t.PeakAgrees(log, h, k)
      {
        assert s.PeakAgrees(log, h, k);
      }
    }
    HeldUnchanged(s, t, log, h, h);
    FirstChunksUnchanged(s, t, log, h, h);
  }

  // ── The delta of one dirty bucket ──

  ghost function DeltaWritten(s: Shape, b: Bucket): Shape {
    s.(dirty := s.dirty - {b}, lastWritten := s.lastWritten[b := s.Content(b)], reloaded := s.reloaded - {b})
  }

  ghost function DeltaLine(s: Shape, b: Bucket): Line {
    Line(b.key, Delta(s.Content(b), s.Last(b)))
  }

  // A reloaded bucket's first delta is taken against zero: what the log already holds is written again.
  ghost function Recount(s: Shape, b: Bucket): seq<Line> {
    if b in s.reloaded then [Line(b.key, Delta(s.reloaded[b], ZERO))] else []
  }

  lemma DeltaWrittenSettled(s: Shape, b: Bucket, log: seq<Line>)
    requires s.Settled(log) && b in s.archive
    ensures DeltaWritten(s, b).Settled(log + [DeltaLine(s, b)])
  {
    var t := DeltaWritten(s, b);
    forall x | x in t.archive
      ensures t.Settles(x, log + [DeltaLine(s, b)])
    {
      PeakOfSnoc(log, DeltaLine(s, b), x.key);
      assert s.Settles(x, log);
    }
  }

  lemma DeltaWrittenUnwritten(s: Shape, b: Bucket, k: Key, f: Field)
    requires s.Indexed() && b in s.archive && (b in s.lastWritten ==> b !in s.reloaded)
    ensures DeltaWritten(s, b).Unwritten(k, f) + SumOf([DeltaLine(s, b)], k, f)
         == s.Unwritten(k, f) + SumOf(Recount(s, b), k, f)
    ensures Max(DeltaWritten(s, b).LivePeak(k), PeakOf([DeltaLine(s, b)], k)) == s.LivePeak(k)
  {
    SumOfSnoc([], DeltaLine(s, b), k, f);
    PeakOfSnoc([], DeltaLine(s, b), k);
    assert [] + [DeltaLine(s, b)] == [DeltaLine(s, b)];
    if b in s.reloaded {
      SumOfSnoc([], Recount(s, b)[0], k, f);
      assert [] + [Recount(s, b)[0]] == Recount(s, b);
    }
  }

  lemma DeltaWrittenHeld(s: Shape, b: Bucket, k: Key, f: Field)
    requires s.Indexed() && b in s.archive && (b in s.lastWritten ==> b !in s.reloaded) && Carried(f)
    ensures DeltaWritten(s, b).Held(k, f) + SumOf(Recount(s, b), k, f)
         == s.Held(k, f) + SumOf([DeltaLine(s, b)], k, f)
  {
    SumOfSnoc([], DeltaLine(s, b), k, f);
    assert [] + [DeltaLine(s, b)] == [DeltaLine(s, b)];
    if b in s.reloaded {
      SumOfSnoc([], Recount(s, b)[0], k, f);
      assert [] + [Recount(s, b)[0]] == Recount(s, b);
    }
  }

  lemma DeltaWrittenFirstChunks(s: Shape, b: Bucket, log: seq<Line>, h: History)
    requires s.FirstChunksKept(log, h)
    ensures DeltaWritten(s, b).FirstChunksKept(log + [DeltaLine(s, b)], Recounted(h, s, b))
  {
    var t, h' := DeltaWritten(s, b), Recounted(h, s, b);
    forall k
      ensures t.FrtAgrees(log + [DeltaLine(s, b)], h', k)
    {
      assert s.FrtAgrees(log, h, k);
      FrtPeakOfSnoc(log, DeltaLine(s, b), k);
      FrtPeakOfConcat(log, log, k);
    }
    forall l | l in h'.overcount
      ensures NoFirstChunk(l.c)
    {
      assert l in h.overcount || l in Recount(s, b);
    }
  }

  /** Writing one delta keeps everything; a reloaded bucket is counted again, and no other. */
  lemma DeltaWrittenConsistent(s: Shape, b: Bucket, log: seq<Line>, h: History)
    requires s.Consistent(log, h) && b in s.archive
    ensures DeltaWritten(s, b).Consistent(log + [DeltaLine(s, b)], Recounted(h, s, b))
  {
    DeltaWrittenSettled(s, b, log);
    forall k, f {
      DeltaWrittenUnwritten(s, b, k, f);
    }
    forall k {
      DeltaWrittenUnwritten(s, b, k, Requests);
    }
    WrittenBalances(s, DeltaWritten(s, b), log, [DeltaLine(s, b)], h, Recount(s, b));
    forall k, f | Carried(f) {
      DeltaWrittenHeld(s, b, k, f);
    }
    HeldStep(s, DeltaWritten(s, b), log, [DeltaLine(s, b)], h, Recounted(h, s, b), Recount(s, b));
    DeltaWrittenFirstChunks(s, b, log, h);
  }

  // Nothing is counted again that was not pending, and nothing pending is forgotten.
  ghost predicate SameRecounts(s: Shape, h: History, t: Shape, h': History) {
    forall k, f :: SumOf(h'.overcount, k, f) + t.RecountOf(k, f) == SumOf(h.overcount, k, f) + s.RecountOf(k, f)
  }

  ghost function Recounted(h: History, s: Shape, b: Bucket): History {
    h.(overcount := h.overcount + Recount(s, b))
  }

  lemma DeltaWrittenRecountOf(s: Shape, b: Bucket, k: Key, f: Field)
    requires b.key in s.archiveIdx && s.archiveIdx[b.key] == b && b in s.dirty
    requires k in s.archiveIdx ==> s.archiveIdx[k].key == k
    ensures DeltaWritten(s, b).RecountOf(k, f) + SumOf(Recount(s, b), k, f) == s.RecountOf(k, f)
  {
    hide Get;
    hide SumOf;
    SumOfNothing([], k, f);
    if b in s.reloaded {
      SumOfSnoc([], Recount(s, b)[0], k, f);
      assert [] + [Recount(s, b)[0]] == Recount(s, b);
    }
  }

  lemma DeltaWrittenRecounts(s0: Shape, h0: History, s: Shape, b: Bucket, log: seq<Line>, h: History)
    requires s.Consistent(log, h) && b in s.dirty
    requires SameRecounts(s0, h0, s, h) && h.SameIntake(h0)
    ensures SameRecounts(s0, h0, DeltaWritten(s, b), Recounted(h, s, b)) && Recounted(h, s, b).SameIntake(h0)
    ensures b !in s.reloaded ==> Recounted(h, s, b) == h
  {
    assert h.overcount + [] == h.overcount;
    assert s.archiveIdx[b.key] == b;
    forall k, f
      ensures SumOf(h.overcount + Recount(s, b), k, f) + DeltaWritten(s, b).RecountOf(k, f)
           == SumOf(h.overcount, k, f) + s.RecountOf(k, f)
    {
      DeltaWrittenRecountOf(s, b, k, f);
      SumOfConcat(h.overcount, Recount(s, b), k, f);
    }
  }

  // A flush counts again exactly what is pending when it starts.
  ghost predicate CountsAgain(s: Shape, h: History, h': History) {
    && h'.SameIntake(h)
    && forall k, f :: SumOf(h'.overcount, k, f) == SumOf(h.overcount, k, f) + s.RecountOf(k, f)
  }

  lemma AllRecounted(s: Shape, h: History, t: Shape, h': History)
    requires SameRecounts(s, h, t, h') && h'.SameIntake(h) && t.dirty == {}
    ensures CountsAgain(s, h, h')
  {
    forall k, f
      ensures SumOf(h'.overcount, k, f) == SumOf(h.overcount, k, f) + s.RecountOf(k, f)
    {
      assert t.RecountOf(k, f) == 0;
    }
  }

  ghost predicate Keeps(before: map<Key, Bucket>, after: map<Key, Bucket>) {
    forall k :: k in before ==> k in after && after[k] == before[k]
  }

  // A bucket that joins the index is not dirty, so closing minutes leaves what is pending as it is.
  lemma ClosedRecounts(s: Shape, log: seq<Line>, t: Shape, log': seq<Line>, h: History)
    requires s.Consistent(log, h) && t.Consistent(log', h) && Keeps(s.archiveIdx, t.archiveIdx)
    requires t.dirty == s.dirty && t.reloaded == s.reloaded
    ensures SameRecounts(s, h, t, h)
    ensures forall b :: b in s.archive ==> b in t.archive
  {
    forall k
      ensures k in t.archiveIdx && k !in s.archiveIdx ==> t.archiveIdx[k] !in s.dirty
    {
      if k in t.archiveIdx && t.archiveIdx[k] in s.dirty {
        var b := t.archiveIdx[k];
        assert b in s.archive && b.key == k;
        assert b.key in s.archiveIdx;
      }
    }
    forall b | b in s.archive
      ensures b in t.archive
    {
      assert s.archiveIdx[b.key] == b;
    }
  }

  lemma DirtyFacts(s: Shape, b: Bucket, log: seq<Line>, h: History)
    requires s.Consistent(log, h) && b in s.dirty
    ensures b in s.archive && b in s.content && Delta(s.Content(b), s.Last(b)).requests > 0
  {
    assert s.Settles(b, log);
  }

  // ── Eviction ──

  function Minutes(bs: seq<Bucket>): (r: set<int>)
    ensures forall b :: b in bs ==> b.key.minute in r
    ensures forall m :: m in r ==> exists b :: b in bs && b.key.minute == m
  {
    set b | b in bs :: b.key.minute
  }

  function Members(bs: seq<Bucket>): set<Bucket> {
    set b | b in bs
  }

  ghost function Evicted(s: Shape, drop: nat): Shape
    requires drop <= |s.archive|
  {
    var gone := Members(s.archive[..drop]);
    var minutes := Minutes(s.archive[..drop]);
    s.(archive := s.archive[drop..], archiveMinutes := s.archiveMinutes - minutes,
       archiveIdx := ExceptMinutes(s.archiveIdx, minutes),
       lastWritten := s.lastWritten - gone, reloaded := s.reloaded - gone, evicted := s.evicted + minutes)
  }

  // What eviction relies on: the archive is sorted, so a minute is dropped entirely or not at all.
  ghost predicate WholeMinutes(arch: seq<Bucket>, drop: nat) {
    drop <= |arch| && forall i, j :: 0 <= i < drop <= j < |arch| ==> arch[i].key.minute < arch[j].key.minute
  }

  lemma EvictedSplit(s: Shape, drop: nat, b: Bucket)
    requires WholeMinutes(s.archive, drop) && b in s.archive
    ensures b in s.archive[..drop] <==> b.key.minute in Minutes(s.archive[..drop])
    ensures b in s.archive[drop..] <==> b.key.minute !in Minutes(s.archive[..drop])
  {
    assert s.archive == s.archive[..drop] + s.archive[drop..];
    if b in s.archive[drop..] {
      var j :| drop <= j < |s.archive| && s.archive[j] == b;
      forall x | x in s.archive[..drop]
        ensures x.key.minute < b.key.minute
      {
        var i :| 0 <= i < drop && s.archive[i] == x;
      }
    }
  }

  lemma EvictedArchive(s: Shape, drop: nat)
    requires WholeMinutes(s.archive, drop)
    ensures forall b :: b in s.archive[drop..] ==> b in s.archive && b.key.minute !in Minutes(s.archive[..drop])
    ensures forall b :: b in s.archive && b.key.minute !in Minutes(s.archive[..drop]) ==> b in s.archive[drop..]
  {
    forall b | b in s.archive {
      EvictedSplit(s, drop, b);
    }
  }

  lemma EvictedIndexed(s: Shape, drop: nat)
    requires s.Indexed() && WholeMinutes(s.archive, drop)
    ensures Evicted(s, drop).Indexed()
  {
    EvictedArchive(s, drop);
    var t, minutes := Evicted(s, drop), Minutes(s.archive[..drop]);
    forall k | k in t.archiveIdx
      ensures k.minute in t.archiveMinutes && t.archiveIdx[k] in t.archive && t.archiveIdx[k].key == k
    {
      assert k in s.archiveIdx && s.archiveIdx[k] in s.archive;
    }
    DistinctSuffix(s.archive, drop);
  }

  lemma DistinctSuffix(bs: seq<Bucket>, from: nat)
    requires from <= |bs| && Distinct(bs)
    ensures Distinct(bs[from..])
  {
  }

  lemma EvictedSettled(s: Shape, drop: nat, log: seq<Line>)
    requires s.Settled(log) && s.dirty == {} && drop <= |s.archive|
    requires forall b :: b in s.archive[drop..] ==> b !in s.archive[..drop]
    ensures Evicted(s, drop).Settled(log)
  {
    var t := Evicted(s, drop);
    assert s.archive == s.archive[..drop] + s.archive[drop..];
    forall x | x in t.archive
      ensures t.Settles(x, log)
    {
      assert s.Settles(x, log);
    }
  }

  // Dropping archived buckets the log has caught up with loses nothing.
  lemma EvictedBalanced(s: Shape, drop: nat, log: seq<Line>, h: History)
    requires s.Indexed() && s.Settled(log) && s.dirty == {} && WholeMinutes(s.archive, drop) && s.Balanced(log, h)
    ensures Evicted(s, drop).Balanced(log, h)
  {
    var t := Evicted(s, drop);
    forall k, f
      ensures t.Unwritten(k, f) == s.Unwritten(k, f)
      ensures t.LivePeak(k) == s.LivePeak(k) || (t.LivePeak(k) == 0 && s.LivePeak(k) <= PeakOf(log, k))
    {
      EvictedUnwritten(s, drop, log, k, f);
    }
    forall k, f
      ensures t.SumAgrees(log, h, k, f)
    {
      assert s.SumAgrees(log, h, k, f) && t.Unwritten(k, f) == s.Unwritten(k, f);
    }
    forall k
      ensures t.PeakAgrees(log, h, k)
    {
      EvictedUnwritten(s, drop, log, k, Requests);
      PeakOfConcat(log, [], k);
      assert s.PeakAgrees(log, h, k);
    }
  }

  // At one key: what goes was written, what stays is untouched.
  lemma EvictedAt(s: Shape, drop: nat, log: seq<Line>, k: Key, f: Field)
    requires drop <= |s.archive|
    requires k in s.active ==> k !in s.archiveIdx
    requires k in s.archiveIdx && k.minute in Minutes(s.archive[..drop]) ==>
      s.Clean(s.archiveIdx[k], log) && s.archiveIdx[k].key == k
    requires k in s.archiveIdx && k.minute !in Minutes(s.archive[..drop]) ==> s.archiveIdx[k] !in s.archive[..drop]
    requires PeakOf(log, k) >= 0
    ensures Evicted(s, drop).Unwritten(k, f) == s.Unwritten(k, f)
    ensures Evicted(s, drop).LivePeak(k) == s.LivePeak(k)
         || (Evicted(s, drop).LivePeak(k) == 0 && s.LivePeak(k) <= PeakOf(log, k))
  {
  }

  lemma EvictedUnwritten(s: Shape, drop: nat, log: seq<Line>, k: Key, f: Field)
    requires s.Indexed() && s.Settled(log) && s.dirty == {} && WholeMinutes(s.archive, drop)
    ensures Evicted(s, drop).Unwritten(k, f) == s.Unwritten(k, f)
    ensures Evicted(s, drop).LivePeak(k) == s.LivePeak(k)
         || (Evicted(s, drop).LivePeak(k) == 0 && s.LivePeak(k) <= PeakOf(log, k))
  {
    PeakOfConcat(log, [], k);
    if k in s.archiveIdx {
      EvictedSplit(s, drop, s.archiveIdx[k]);
      assert s.Settles(s.archiveIdx[k], log);
    }
    EvictedAt(s, drop, log, k, f);
  }

  lemma EvictedHeld(s: Shape, drop: nat, k: Key, f: Field)
    requires s.Indexed() && WholeMinutes(s.archive, drop) && k.minute !in Evicted(s, drop).evicted
    ensures Evicted(s, drop).Held(k, f) == s.Held(k, f)
  {
    if k in s.archiveIdx {
      EvictedSplit(s, drop, s.archiveIdx[k]);
    }
  }

  /** Evicting a prefix of whole minutes keeps everything, because nothing is dirty. */
  lemma EvictedConsistent(s: Shape, drop: nat, log: seq<Line>, h: History)
    requires s.Consistent(log, h) && s.dirty == {} && WholeMinutes(s.archive, drop)
    ensures Evicted(s, drop).Consistent(log, h)
  {
    EvictedIndexed(s, drop);
    EvictedArchive(s, drop);
    EvictedSettled(s, drop, log);
    EvictedBalanced(s, drop, log, h);
    forall k: Key, f: Field | k.minute !in Evicted(s, drop).evicted {
      EvictedHeld(s, drop, k, f);
    }
    HeldUnchanged(s, Evicted(s, drop), log, h, h);
    FirstChunksUnchanged(s, Evicted(s, drop), log, h, h);
  }

  ghost function Within(m: map<Bucket, Counters>, arch: seq<Bucket>): map<Bucket, Counters> {
    map b | b in m && b in arch :: m[b]
  }

  // Of the reloaded buckets exactly those still in the archive are left.
  lemma EvictedReloaded(s: Shape, drop: nat, log: seq<Line>, h: History)
    requires s.Consistent(log, h) && WholeMinutes(s.archive, drop)
    ensures Evicted(s, drop).reloaded == Within(s.reloaded, s.archive[drop..])
  {
    forall b | b in s.reloaded
      ensures b in Members(s.archive[..drop]) <==> b !in s.archive[drop..]
    {
      EvictedSplit(s, drop, b);
    }
    WithoutIsWithin(s.reloaded, Members(s.archive[..drop]), s.archive[drop..]);
  }

  lemma WithoutIsWithin(m: map<Bucket, Counters>, gone: set<Bucket>, left: seq<Bucket>)
    requires forall b :: b in m ==> (b in gone <==> b !in left)
    ensures m - gone == Within(m, left)
  {
  }

  // ── What consistency says after a flush, when nothing is dirty ──

  /** The log then holds exactly what is due of every key that is not open, evicted ones included. */
  lemma LogIsComplete(s: Shape, log: seq<Line>, h: History, k: Key, f: Field)
    requires s.Consistent(log, h) && s.dirty == {} && k !in s.active
    ensures SumOf(log, k, f) == h.Due(k, f)
    ensures PeakOf(log, k) == h.Peak(k)
  {
    assert s.SumAgrees(log, h, k, f) && s.PeakAgrees(log, h, k);
    PeakOfConcat(log, [], k);
    if k in s.archiveIdx {
      assert s.Settles(s.archiveIdx[k], log);
    }
  }

  lemma {:induction false} SumOfNonNegative(lines: seq<Line>, k: Key, f: Field)
    requires forall l :: l in lines ==> Get(l.c, f) >= 0
    ensures SumOf(lines, k, f) >= 0
    ensures SumOf(lines, k, f) == 0 <==> forall l :: l in lines && l.key == k ==> Get(l.c, f) == 0
  {
    if lines != [] {
      var n := |lines| - 1;
      assert lines == lines[..n] + [lines[n]];
      SumOfNonNegative(lines[..n], k, f);
    }
  }

  // What a reload makes a flush count again has no first-chunk counters.
  lemma NothingRecounted(lines: seq<Line>, k: Key, f: Field)
    requires !Carried(f) && forall l :: l in lines ==> NoFirstChunk(l.c)
    ensures SumOf(lines, k, f) == 0
  {
    SumOfNonNegative(lines, k, f);
  }

  /**
   A delta carries no first-chunk counters, so of those the log is complete exactly when the late
   entries of the key add nothing to them.
   */
  lemma FirstChunksAreComplete(s: Shape, log: seq<Line>, h: History, k: Key, f: Field)
    requires s.Consistent(log, h) && s.dirty == {} && k !in s.active && !Carried(f)
    requires forall l :: l in h.late ==> Get(l.c, f) >= 0
    ensures SumOf(log, k, f) == SumOf(h.carry, k, f) + SumOf(h.early, k, f) + SumOf(h.late, k, f)
       <==> forall l :: l in h.late && l.key == k ==> Get(l.c, f) == 0
  {
    LogIsComplete(s, log, h, k, f);
    NothingRecounted(h.overcount, k, f);
    SumOfNonNegative(h.late, k, f);
  }

  /** Nor their peak: the log has the true one exactly when no late entry of the key is above the others. */
  lemma FirstChunkPeakIsComplete(s: Shape, log: seq<Line>, h: History, k: Key)
    requires s.Consistent(log, h) && k !in s.active
    ensures FrtPeakOf(log, k) == Max(h.FrtPeak(k), FrtPeakOf(h.late, k)) <==> FrtPeakOf(h.late, k) <= h.FrtPeak(k)
  {
    assert s.FrtAgrees(log, h, k);
    FrtPeakOfConcat(log, [], k);
  }

  /**
   A reload does not restore what was last written: the first delta of a reloaded bucket puts all it
   held at the reload into the log a second time, whatever was counted again before.
   */
  lemma ReloadCountsAgain(s: Shape, b: Bucket, log: seq<Line>, h: History, f: Field)
    requires s.Consistent(log, h) && b in s.archive && b in s.reloaded && Carried(f)
    requires b.key !in s.active
    ensures SumOf(log + [DeltaLine(s, b)], b.key, f)
         == SumOf(h.carry, b.key, f) + SumOf(h.early, b.key, f) + SumOf(h.late, b.key, f)
            + SumOf(h.overcount, b.key, f) + Get(s.reloaded[b], f)
  {
    DeltaWrittenConsistent(s, b, log, h);
    var t, log', h' := DeltaWritten(s, b), log + [DeltaLine(s, b)], Recounted(h, s, b);
    assert t.SumAgrees(log', h', b.key, f);
    SumOfSnoc(h.overcount, Recount(s, b)[0], b.key, f);
  }

  /** Of a minute never dropped, the log gives back every carried counter of the bucket and what was counted again. */
  lemma ReplayRebuilds(s: Shape, log: seq<Line>, h: History, k: Key, f: Field)
    requires s.Consistent(log, h) && s.dirty == {}
    requires k in s.archiveIdx && k.minute !in s.evicted && Carried(f)
    ensures SumOf(log, k, f) == Get(s.Content(s.archiveIdx[k]), f) + SumOf(h.overcount, k, f)
  {
    assert s.HeldAgrees(log, h, k, f);
    assert s.Settles(s.archiveIdx[k], log);
  }

  // ── Start-up ──

  // A process that finds `onDisk` and has reloaded nothing yet.
  ghost function Booted(onDisk: seq<Line>): Shape {
    Shape({}, map[], [], {}, map[], {}, map[], map[], map[], set l | l in onDisk :: l.key.minute)
  }

  lemma BootedConsistent(onDisk: seq<Line>)
    ensures Booted(onDisk).Consistent(onDisk, History(onDisk, [], [], []))
  {
    var s, h := Booted(onDisk), History(onDisk, [], [], []);
    forall k, f
      ensures s.SumAgrees(onDisk, h, k, f) && s.HeldAgrees(onDisk, h, k, f)
    {
      if k.minute !in s.evicted {
        SumOfNothing(onDisk, k, f);
      }
    }
    forall k
      ensures s.PeakAgrees(onDisk, h, k) && s.FrtAgrees(onDisk, h, k)
    {
      PeakOfConcat(onDisk, [], k);
      FrtPeakOfConcat(onDisk, [], k);
      FrtPeakOfNothing(k);
    }
  }

  // The same process after one bucket was rebuilt for each key of `day`'s file.
  ghost predicate IsReloaded(t: Shape, onDisk: seq<Line>, dayOf: int -> int, day: int) {
    && t.openMinutes == {} && t.active == map[] && t.dirty == {} && t.lastWritten == map[]
    && t.Indexed()
    && t.reloaded == t.content
    && (forall b :: b in t.content ==> b in t.archive)
    && (forall k :: k in t.archiveIdx ==> dayOf(k.minute) == day)
    && (forall k, f :: k in t.archiveIdx ==> Get(t.Content(t.archiveIdx[k]), f) == SumOf(onDisk, k, f))
    && (forall k :: k in t.archiveIdx ==> Max(0, t.Content(t.archiveIdx[k]).rtMaxMs) == PeakOf(onDisk, k))
    && (forall l :: l in onDisk && dayOf(l.key.minute) == day ==> l.key in t.archiveIdx)
    && t.evicted == OtherDays(onDisk, dayOf, day)
  }

  ghost function OtherDays(onDisk: seq<Line>, dayOf: int -> int, day: int): set<int> {
    set l | l in onDisk && dayOf(l.key.minute) != day :: l.key.minute
  }

  // The same, in terms of the file that was merged.
  ghost predicate Rebuilt(idx: map<Key, Bucket>, content: map<Bucket, Counters>, file: seq<Line>) {
    && idx.Keys == LineKeys(file)
    && (forall k :: k in idx ==> idx[k] in content)
    && (forall k, f :: SumOf(file, k, f) == if k in idx then Get(content[idx[k]], f) else 0)
    && (forall k :: PeakOf(file, k) == if k in idx then Max(0, content[idx[k]].rtMaxMs) else 0)
  }

  // A list of the buckets of an index, each once.
  ghost predicate Lists(bs: seq<Bucket>, idx: map<Key, Bucket>) {
    && Distinct(bs)
    && (forall b :: b in bs ==> b.key in idx && idx[b.key] == b)
    && (forall k :: k in idx ==> idx[k].key == k && idx[k] in bs)
  }

  // The process that booted on `onDisk`, with rebuilt buckets as its archive.
  ghost function Loaded(onDisk: seq<Line>, idx: map<Key, Bucket>, bs: seq<Bucket>, held: map<Bucket, Counters>,
                        others: set<int>): Shape {
    Booted(onDisk).(archive := bs, archiveIdx := idx, archiveMinutes := Minutes(bs),
                    content := held, reloaded := held, evicted := others)
  }

  lemma ListedIsIndexed(onDisk: seq<Line>, idx: map<Key, Bucket>, bs: seq<Bucket>, held: map<Bucket, Counters>,
                        others: set<int>)
    requires Lists(bs, idx) && (forall b :: b in bs <==> b in held)
    ensures Loaded(onDisk, idx, bs, held, others).Indexed()
  {
    forall b | b in bs
      ensures b.key in idx && idx[b.key] == b
    {
    }
  }

  // Every line of the file is of the day, so a key has the same sums in it as in the whole log.
  lemma FileCoversDay(onDisk: seq<Line>, idx: map<Key, Bucket>, held: map<Bucket, Counters>, dayOf: int -> int, day: int)
    requires Rebuilt(idx, held, FileOf(onDisk, dayOf, day))
    ensures forall k :: k in idx ==> dayOf(k.minute) == day
    ensures forall k, f :: k in idx ==> Get(held[idx[k]], f) == SumOf(onDisk, k, f)
    ensures forall k :: k in idx ==> Max(0, held[idx[k]].rtMaxMs) == PeakOf(onDisk, k)
    ensures forall l :: l in onDisk && dayOf(l.key.minute) == day ==> l.key in idx
  {
    FileOfMembers(onDisk, dayOf, day);
    forall k | k in idx
      ensures dayOf(k.minute) == day
    {
      assert k in LineKeys(FileOf(onDisk, dayOf, day));
      var l :| l in FileOf(onDisk, dayOf, day) && l.key == k;
    }
    forall l | l in onDisk && dayOf(l.key.minute) == day
      ensures l.key in idx
    {
      assert l.key in LineKeys(FileOf(onDisk, dayOf, day));
    }
    forall k, f {
      FileOfSums(onDisk, dayOf, day, k, f);
    }
    forall k {
      FileOfSums(onDisk, dayOf, day, k, Requests);
    }
  }

  lemma RebuiltIsReloaded(onDisk: seq<Line>, idx: map<Key, Bucket>, bs: seq<Bucket>, held: map<Bucket, Counters>,
                          dayOf: int -> int, day: int)
    requires Lists(bs, idx) && (forall b :: b in bs <==> b in held)
    requires Rebuilt(idx, held, FileOf(onDisk, dayOf, day))
    ensures IsReloaded(Loaded(onDisk, idx, bs, held, OtherDays(onDisk, dayOf, day)), onDisk, dayOf, day)
  {
    ListedIsIndexed(onDisk, idx, bs, held, OtherDays(onDisk, dayOf, day));
    FileCoversDay(onDisk, idx, held, dayOf, day);
  }

  lemma ReloadedPositive(t: Shape, onDisk: seq<Line>, dayOf: int -> int, day: int)
    requires IsReloaded(t, onDisk, dayOf, day) && Countable(onDisk)
    ensures Positive(t.content)
  {
    forall b | b in t.content
      ensures t.content[b].requests >= 0
    {
      SumOfNonNegative(onDisk, b.key, Requests);
      assert b.key in t.archiveIdx && t.archiveIdx[b.key] == b;
      assert Get(t.content[b], Requests) == SumOf(onDisk, b.key, Requests);
    }
  }

  /** A reload is consistent with the log it read, provided no line counts a negative number of requests. */
  lemma ReloadedConsistent(t: Shape, onDisk: seq<Line>, dayOf: int -> int, day: int)
    requires IsReloaded(t, onDisk, dayOf, day)
    requires Countable(onDisk)
    ensures t.Consistent(onDisk, History(onDisk, [], [], []))
  {
    var h := History(onDisk, [], [], []);
    forall b | b in t.archive
      ensures t.Settles(b, onDisk)
    {
      SumOfNonNegative(onDisk, b.key, Requests);
      PeakOfConcat(onDisk, [], b.key);
      assert b.key in t.archiveIdx && t.archiveIdx[b.key] == b;
    }
    forall k, f
      ensures t.SumAgrees(onDisk, h, k, f) && t.HeldAgrees(onDisk, h, k, f)
    {
      if k !in t.archiveIdx && k.minute !in t.evicted {
        SumOfNothing(onDisk, k, f);
      }
    }
    forall k
      ensures t.PeakAgrees(onDisk, h, k) && t.FrtAgrees(onDisk, h, k)
    {
      PeakOfConcat(onDisk, [], k);
      FrtPeakOfConcat(onDisk, [], k);
      FrtPeakOfNothing(k);
    }
  }
}
