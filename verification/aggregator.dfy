/**
 The per-minute aggregator of the body-log listener: an in-memory index of mutable buckets over an
 append-only log of metrics lines. `Valid` holds between any two calls and contains both the
 agreement of the five linked structures and the balance of the log against everything ingested.
 */
module Aggregation {
  import opened MinuteCounters
  import opened LinkedBuckets
  import opened Wrappers

  // What `ingest` reads off one assembled entry.
  datatype Entry = Entry(
    tsEnd: Option<int>, peer: string, stream: Stream, status: int,
    promptTok: int, cachedTok: int, complTok: int, totalTok: int,
    reqBytes: int, respBytes: int, rtMs: int, frtMs: Option<int>)

  const FLUSH_AGE := 90

  // The minute a time lies in. Times are Unix seconds; one before 1970 goes to the minute after it.
  predicate InMinute(m: int, t: int) {
    m % 60 == 0 && if t >= 0 then m <= t < m + 60 else t <= m < t + 60
  }

  // Go's % keeps the sign of its left operand.
  function AlignMinute(t: int): (m: int)
    ensures InMinute(m, t) && forall n :: InMinute(n, t) ==> n == m
  {
    t - (if t >= 0 then t % 60 else -((-t) % 60))
  }

  // An entry belongs to a key by the minute in which it ended, its peer and its stream parameter.
  predicate Concerns(e: Entry, now: int, k: Key) {
    && InMinute(k.minute, if e.tsEnd.Some? then e.tsEnd.value else now)
    && k.pk.peer == e.peer && k.pk.stream == e.stream
  }

  function KeyOf(e: Entry, now: int): (key: Key)
    ensures forall k :: Concerns(e, now, k) <==> k == key
  {
    Key(AlignMinute(if e.tsEnd.Some? then e.tsEnd.value else now), PeerKey(e.peer, e.stream))
  }

  function FirstChunkMs(e: Entry): int {
    if e.frtMs.Some? then e.frtMs.value else 0
  }

  // What an entry itself says of each counter.
  function Own(e: Entry, f: Field): int {
    match f
    case Requests => 1
    case Status2xx => if e.status / 100 == 2 then 1 else 0
    case Status4xx => if e.status / 100 == 4 then 1 else 0
    case Status5xx => if e.status >= 500 then 1 else 0
    case PromptTok => e.promptTok
    case CachedTok => e.cachedTok
    case ComplTok => e.complTok
    case TotalTok => e.totalTok
    case ReqBytes => e.reqBytes
    case RespBytes => e.respBytes
    case RTSumMs => e.rtMs
    case FrtSumMs => FirstChunkMs(e)
    case FrtN => if e.frtMs.Some? then 1 else 0
  }

  // The increments one entry makes on its bucket: its own counters, and its times as peaks.
  function Contribution(e: Entry): (c: Counters)
    ensures forall f :: Get(c, f) == Own(e, f)
    ensures c.rtMaxMs == e.rtMs && c.frtMaxMs == FirstChunkMs(e)
    ensures c.requests == 1 && c.status2xx + c.status4xx + c.status5xx <= 1
  {
    var frt := if e.frtMs.Some? then e.frtMs.value else 0;
    Counters(
      1, if 200 <= e.status < 300 then 1 else 0,
      if 400 <= e.status < 500 then 1 else 0, if e.status >= 500 then 1 else 0,
      e.promptTok, e.cachedTok, e.complTok, e.totalTok, e.reqBytes, e.respBytes,
      e.rtMs, e.rtMs, frt, frt, if e.frtMs.Some? then 1 else 0)
  }

  ghost function Archived(idx: map<Key, Bucket>, k: Key): set<Bucket> {
    if k in idx then {idx[k]} else {}
  }

  // What an entry does to what is archived: the buckets stay, and that of the key, if any, is now dirty.
  ghost predicate Charges(s: Shape, t: Shape, k: Key) {
    && t.archiveMinutes == s.archiveMinutes && Keeps(s.archiveIdx, t.archiveIdx)
    && t.dirty == s.dirty + Archived(t.archiveIdx, k) && t.reloaded == s.reloaded
    && (Positive(s.content) ==> Positive(t.content))
  }

  // An entry's increments on the bucket they belong to, and nothing else changed.
  ghost predicate Placed(s: Shape, t: Shape, b: Bucket, d: Counters) {
    if b.key.minute in s.archiveMinutes then GoesLate(s, b, t.archive) && t == PlacedLate(s, b, d, t.archive)
    else GoesOpen(s, b) && t == PlacedOpen(s, b, d)
  }

  lemma OpenCharges(s: Shape, b: Bucket, d: Counters)
    requires b.key !in s.archiveIdx && d.requests >= 0
    ensures Charges(s, PlacedOpen(s, b, d), b.key)
  {
  }

  lemma LateCharges(s: Shape, b: Bucket, d: Counters, arch: seq<Bucket>)
    requires b.key in s.archiveIdx ==> b == s.archiveIdx[b.key]
    requires d.requests >= 0
    ensures Charges(s, PlacedLate(s, b, d, arch), b.key)
  {
  }

  lemma PlacedCharges(s: Shape, t: Shape, b: Bucket, d: Counters, log: seq<Line>, h: History)
    requires s.Consistent(log, h) && Placed(s, t, b, d) && d.requests > 0
    ensures Charges(s, t, b.key)
  {
    if b.key.minute in s.archiveMinutes {
      LateCharges(s, b, d, t.archive);
    } else {
      assert b.key !in s.archiveIdx;
      OpenCharges(s, b, d);
    }
  }

  lemma PlacedConsistent(s: Shape, t: Shape, b: Bucket, d: Counters, log: seq<Line>, h: History)
    requires s.Consistent(log, h) && Placed(s, t, b, d) && d.requests > 0
    ensures t.Consistent(log, h.Take(Line(b.key, d), b.key.minute in s.archiveMinutes)) && Charges(s, t, b.key)
  {
    PlacedCharges(s, t, b, d, log, h);
    hide Shape.Consistent;
    hide Charges;
    if b.key.minute in s.archiveMinutes {
      PlacedLateConsistent(s, b, d, t.archive, log, h);
    } else {
      PlacedOpenConsistent(s, b, d, log, h);
    }
  }

  predicate Retained(minute: int, keepMin: int, now: int) {
    keepMin <= 0 || minute >= now - keepMin * 60
  }

  // Retention keeps exactly the buckets of the last `keepMin` minutes, all of them when it is off.
  ghost predicate Kept(before: seq<Bucket>, after: seq<Bucket>, keepMin: int, now: int) {
    && (forall b :: b in after ==> b in before)
    && (forall b :: b in before ==> (b in after <==> Retained(b.key.minute, keepMin, now)))
  }

  ghost predicate Older(bs: seq<Bucket>, drop: nat, cutMin: int) {
    drop <= |bs| && forall i :: 0 <= i < |bs| ==> (i < drop <==> bs[i].key.minute < cutMin)
  }

  lemma EvictedIsKept(s: Shape, drop: nat, keepMin: int, now: int, log: seq<Line>, h: History)
    requires s.Consistent(log, h) && s.dirty == {} && Ascending(s.archive) && WholeMinutes(s.archive, drop)
    requires keepMin > 0 && Older(s.archive, drop, now - keepMin * 60)
    ensures Evicted(s, drop).Consistent(log, h) && Ascending(Evicted(s, drop).archive)
    ensures Kept(s.archive, Evicted(s, drop).archive, keepMin, now)
    ensures Evicted(s, drop).reloaded == Within(s.reloaded, Evicted(s, drop).archive)
  {
    EvictedConsistent(s, drop, log, h);
    EvictedReloaded(s, drop, log, h);
  }

  lemma NothingEvicted(s: Shape, keepMin: int, now: int, log: seq<Line>, h: History)
    requires s.Consistent(log, h)
    ensures keepMin <= 0 ==> Kept(s.archive, s.archive, keepMin, now)
    ensures Within(s.reloaded, s.archive) == s.reloaded
  {
  }

  class Aggregator {
    // `active` and `archiveIdx` of the source, each as its minutes and its buckets by key.
    var openMinutes: set<int>
    var active: map<Key, Bucket>
    var archive: seq<Bucket>                 // closed buckets, ascending by minute
    var archiveMinutes: set<int>
    var archiveIdx: map<Key, Bucket>
    var archiveDirty: set<Bucket>            // archived buckets changed since the last flush
    var archiveLastWritten: map<Bucket, Counters>
    var log: seq<Line>                       // metrics/<day>.jsonl of every day, in write order
    const archiveKeepMin: int

    ghost var reloaded: map<Bucket, Counters>
    ghost var content: map<Bucket, Counters> // what each bucket holds; its keys are the footprint
    ghost var evicted: set<int>
    ghost var history: History
    ghost var flushed: seq<Line>             // every line a flush had to write, and those it could not
    ghost var lost: seq<Line>

    ghost function Now(): Shape
      reads this
    {
      Shape(openMinutes, active, archive, archiveMinutes, archiveIdx, archiveDirty, archiveLastWritten,
            reloaded, content, evicted)
    }

    ghost predicate Tied()
      reads this`content, content.Keys
    {
      forall b :: b in content ==> b.c == content[b]
    }

    ghost predicate Valid()
      reads this, content.Keys
    {
      Tied() && Ascending(archive) && Now().Consistent(flushed, history) && Parts(flushed, log, lost)
    }

    /** A process starting on the log it finds, with nothing in memory. */
    constructor (keepMin: int, onDisk: seq<Line>)
      ensures Valid() && archiveKeepMin == keepMin
      ensures Now() == Booted(onDisk) && log == onDisk && history == History(onDisk, [], [], [])
      ensures flushed == onDisk && lost == []
    {
      openMinutes, active, archive, archiveMinutes, archiveIdx := {}, map[], [], {}, map[];
      archiveDirty, archiveLastWritten, log := {}, map[], onDisk;
      archiveKeepMin := keepMin;
      reloaded, content, evicted := map[], map[], set l | l in onDisk :: l.key.minute;
      history, flushed, lost := History(onDisk, [], [], []), onDisk, [];
      new;
      BootedConsistent(onDisk);
      NothingLostYet(onDisk);
    }

    /** One line of the file: added to the bucket of its key, or a copy of it becomes that bucket. */
    static method MergeLine(idx: map<Key, Bucket>, l: Line) returns (r: map<Key, Bucket>)
      requires forall k :: k in idx ==> idx[k].key == k
      modifies set k | k in idx :: idx[k]
      ensures r.Keys == idx.Keys + {l.key}
      ensures forall k :: k in r ==> r[k].key == k && (k in idx ==> r[k] == idx[k]) && (k !in idx ==> fresh(r[k]))
      ensures forall k :: k in idx && k != l.key ==> r[k].c == old(idx[k].c)
      ensures r[l.key].c == if l.key in idx then Add(old(idx[l.key].c), l.c) else l.c
    {
      r := idx;
      if l.key in idx {
        idx[l.key].c := Add(idx[l.key].c, l.c);
      } else {
        var b := new Bucket(l.key);
        b.c := l.c;
        r := idx[l.key := b];
      }
    }

    ghost static predicate Holds(idx: map<Key, Bucket>, lines: seq<Line>)
      reads set k | k in idx :: idx[k]
    {
      && (forall k :: k in idx ==> idx[k].key == k)
      && idx.Keys == LineKeys(lines)
      && (forall k, f :: SumOf(lines, k, f) == if k in idx then Get(idx[k].c, f) else 0)
      && (forall k :: PeakOf(lines, k) == if k in idx then Max(0, idx[k].c.rtMaxMs) else 0)
    }

    static method MergeNext(idx: map<Key, Bucket>, l: Line, ghost before: seq<Line>) returns (r: map<Key, Bucket>)
      requires Holds(idx, before)
      modifies set k | k in idx :: idx[k]
      ensures Holds(r, before + [l])
      ensures forall k :: k in r ==> k !in idx ==> fresh(r[k])
      ensures forall k :: k in r ==> k in idx ==> r[k] == idx[k]
    {
      r := MergeLine(idx, l);
      forall k, f {
        SumOfSnoc(before, l, k, f);
      }
      forall k {
        PeakOfSnoc(before, l, k);
      }
      assert LineKeys(before + [l]) == LineKeys(before) + {l.key};
    }

    /** The buckets of one file: for each key, the sums and the peak of its lines. */
    static method MergeFile(lines: seq<Line>) returns (idx: map<Key, Bucket>)
      ensures Holds(idx, lines) && forall k :: k in idx ==> fresh(idx[k])
    {
      idx := map[];
      for i := 0 to |lines|
        invariant Holds(idx, lines[..i]) && forall k :: k in idx ==> fresh(idx[k])
      {
        assert lines[..i + 1] == lines[..i] + [lines[i]];
        idx := MergeNext(idx, lines[i], lines[..i]);
      }
      assert lines[..|lines|] == lines;
    }

    /** The buckets of an index as a list ascending by minute. */
    static method ListByMinute(idx: map<Key, Bucket>) returns (r: seq<Bucket>)
      requires forall k :: k in idx ==> idx[k].key == k
      ensures Lists(r, idx) && Ascending(r)
    {
      var bs := [];
      var todo := idx.Keys;
      while todo != {}
        invariant todo <= idx.Keys && Distinct(bs)
        invariant forall b :: b in bs ==> b.key in idx && b.key !in todo && idx[b.key] == b
        invariant forall k :: k in idx && k !in todo ==> idx[k] in bs
        decreases todo
      {
        var k :| k in todo;
        bs, todo := bs + [idx[k]], todo - {k};
      }
      r := SortByMinute(bs);
    }

    ghost static function ContentsOf(bs: seq<Bucket>): (r: map<Bucket, Counters>)
      reads bs
      ensures forall b :: b in r ==> b in bs && r[b] == b.c
      ensures forall b :: b in bs ==> b in r
    {
      map b: Bucket | b in bs :: b.c
    }

    static lemma HeldIsRebuilt(idx: map<Key, Bucket>, bs: seq<Bucket>, file: seq<Line>)
      requires Holds(idx, file) && Lists(bs, idx)
      ensures Rebuilt(idx, ContentsOf(bs), file)
    {
    }

    /** Publishes rebuilt buckets as the archive. `archiveLastWritten` is left as it was: empty. */
    method Install(idx: map<Key, Bucket>, loaded: seq<Bucket>, ghost held: map<Bucket, Counters>, ghost others: set<int>)
      requires Now() == Booted(log) && forall b :: b in held ==> b.c == held[b]
      modifies this`archive, this`archiveMinutes, this`archiveIdx, this`reloaded, this`content, this`evicted
      ensures Now() == Loaded(log, idx, loaded, held, others) && Tied()
    {
      hide Minutes;
      archive, archiveIdx, archiveMinutes := loaded, idx, Minutes(loaded);
      content, reloaded, evicted := held, held, others;
    }

    static method RebuildBuckets(file: seq<Line>) returns (idx: map<Key, Bucket>, loaded: seq<Bucket>)
      ensures Lists(loaded, idx) && Ascending(loaded) && Rebuilt(idx, ContentsOf(loaded), file)
      ensures forall b :: b in loaded ==> fresh(b)
    {
      idx := MergeFile(file);
      loaded := ListByMinute(idx);
      HeldIsRebuilt(idx, loaded, file);
    }

    method Restore(file: seq<Line>, ghost others: set<int>) returns (idx: map<Key, Bucket>, loaded: seq<Bucket>)
      requires Now() == Booted(log)
      modifies this`archive, this`archiveMinutes, this`archiveIdx, this`reloaded, this`content, this`evicted
      ensures Lists(loaded, idx) && Ascending(loaded) && Rebuilt(idx, content, file)
      ensures Now() == Loaded(log, idx, loaded, content, others) && Tied() && fresh(content.Keys)
      ensures forall b :: b in loaded <==> b in content
    {
      idx, loaded := RebuildBuckets(file);
      hide Rebuilt;
      Install(idx, loaded, ContentsOf(loaded), others);
    }

    /** Rebuilds the archive from today's file: one bucket a key, holding the sums of its lines. */
    method Reload(dayOf: int -> int, today: int)
      requires Now() == Booted(log) && history == History(log, [], [], []) && flushed == log && lost == []
      modifies this`archive, this`archiveMinutes, this`archiveIdx, this`reloaded, this`content, this`evicted
      ensures IsReloaded(Now(), log, dayOf, today) && Tied() && fresh(content.Keys)
      ensures Countable(log) ==> Valid() && Positive(content)
    {
      var idx, loaded := Restore(FileOf(log, dayOf, today), OtherDays(log, dayOf, today));
      RebuiltIsReloaded(log, idx, loaded, content, dayOf, today);
      if Countable(log) {
        ReloadedConsistent(Now(), log, dayOf, today);
        ReloadedPositive(Now(), log, dayOf, today);
        NothingLostYet(log);
      }
    }

    // ── ingest ──

    /** The increments of one entry, made on the bucket itself. */
    method Bump(b: Bucket, d: Counters)
      requires Tied() && (b !in content ==> b.c == ZERO)
      modifies b`c, this`content
      ensures Tied() && content == old(content)[b := Add(old(Now()).Content(b), d)]
    {
      b.c := Add(b.c, d);
      content := content[b := b.c];
    }

    /** An entry whose minute is not archived goes to the open bucket of its key, or to a new one. */
    method ChargeOpen(key: Key, d: Counters) returns (b: Bucket)
      requires Tied() && key.minute !in archiveMinutes
      requires key in active ==> key.minute in openMinutes && active[key].key == key && active[key] in content
      modifies this`openMinutes, this`active, this`content, content.Keys
      ensures Tied() && fresh(content.Keys - old(content.Keys))
      ensures b.key == key && GoesOpen(old(Now()), b)
      ensures Now() == PlacedOpen(old(Now()), b, d)
    {
      if key.minute in openMinutes && key in active {
        b := active[key];
      } else {
        b := new Bucket(key);
        openMinutes := openMinutes + {key.minute};
        active := active[key := b];
      }
      Bump(b, d);
    }

    /** A late entry goes to the archived bucket of its key, or to a new one inserted in minute order. */
    method ChargeLate(key: Key, d: Counters) returns (b: Bucket)
      requires Tied() && Now().Indexed() && Ascending(archive) && key.minute in archiveMinutes
      modifies this`archive, this`archiveIdx, this`archiveDirty, this`content, content.Keys
      ensures Tied() && Ascending(archive) && fresh(content.Keys - old(content.Keys))
      ensures b.key == key && GoesLate(old(Now()), b, archive)
      ensures Now() == PlacedLate(old(Now()), b, d, archive)
    {
      if key in archiveIdx {
        b := archiveIdx[key];
      } else {
        b := new Bucket(key);
        archiveIdx := archiveIdx[key := b];
        archive := InsertByMinute(archive, b);
      }
      assert archiveIdx == old(archiveIdx)[key := b];
      archiveDirty := archiveDirty + {b};
      Bump(b, d);
    }

    /** An entry's bucket: late or not, by whether its minute is archived. */
    method Charge(key: Key, d: Counters) returns (b: Bucket)
      requires Valid()
      modifies this`openMinutes, this`active, this`archive, this`archiveIdx, this`archiveDirty
      modifies this`content, content.Keys
      ensures Tied() && Ascending(archive) && fresh(content.Keys - old(content.Keys))
      ensures b.key == key && Placed(old(Now()), Now(), b, d)
    {
      if key.minute !in archiveMinutes {
        b := ChargeOpen(key, d);
      } else {
        b := ChargeLate(key, d);
      }
    }

    /** One entry: its increments land on exactly one bucket, the one of its key. */
    method Ingest(e: Entry, now: int)
      requires Valid()
      modifies this, content.Keys
      ensures Valid() && fresh(content.Keys - old(content.Keys))
      ensures log == old(log) && lost == old(lost) && flushed == old(flushed) && Charges(old(Now()), Now(), KeyOf(e, now))
      ensures history == old(history).Take(Line(KeyOf(e, now), Contribution(e)), KeyOf(e, now).minute in old(archiveMinutes))
    {
      hide Shape.Consistent;
      hide Parts;
      hide Placed;
      hide Charges;
      hide Ascending;
      var key, d := KeyOf(e, now), Contribution(e);
      ghost var late := key.minute in archiveMinutes;
      var b := Charge(key, d);
      PlacedConsistent(old(Now()), Now(), b, d, flushed, history);
      history := history.Take(Line(key, d), late);
    }

    // ── flush ──

    /** The buckets of one open minute: a full line and a last-written copy of each. */
    method SnapshotMinute(m: int) returns (lines: seq<Line>, ptrs: seq<Bucket>, snap: map<Bucket, Counters>)
      requires Tied() && m in openMinutes
      requires forall k :: k in active ==> active[k] in content && active[k].key == k
      ensures MovesMinute(Now(), m, ptrs, snap) && WritesMinute(Now(), m, lines)
      ensures Positive(content) ==> Countable(lines)
    {
      lines, ptrs, snap := [], [], map[];
      ghost var s := Now();
      var todo := set k | k in active && k.minute == m;
      WritesNothing(s, m, todo);
      while todo != {}
        invariant forall k :: k in todo ==> Closing(s, m, k)
        invariant Distinct(ptrs)
        invariant forall b :: b in ptrs ==> Closing(s, m, b.key) && b.key !in todo && s.active[b.key] == b
        invariant forall k :: Closing(s, m, k) && k !in todo ==> s.active[k] in ptrs
        invariant forall b :: b in ptrs ==> b in snap
        invariant forall b :: b in snap ==> b in ptrs && snap[b] == s.Content(b)
        invariant WritesAllBut(s, m, todo, lines)
        invariant Positive(content) ==> Countable(lines)
        decreases todo
      {
        var k :| k in todo;
        assert Closing(s, m, k);
        var b := active[k];
        WritesOneMore(s, m, todo, lines, k);
        lines, ptrs, snap := lines + [Line(b.key, b.c)], ptrs + [b], snap[b := b.c];
        todo := todo - {k};
      }
    }

    /** Moves one minute from the open to the archived index; the archive itself is extended later. */
    method MoveMinute(m: int) returns (lines: seq<Line>, ptrs: seq<Bucket>, snap: map<Bucket, Counters>)
      requires Tied() && m in openMinutes
      requires forall k :: k in active ==> active[k] in content && active[k].key == k
      modifies this`openMinutes, this`active, this`archiveMinutes, this`archiveIdx, this`archiveLastWritten
      ensures openMinutes == old(openMinutes) - {m}
      ensures MovesMinute(old(Now()), m, ptrs, snap) && WritesMinute(old(Now()), m, lines)
      ensures Positive(content) ==> Countable(lines)
      ensures Now() == MinuteClosed(old(Now()), m, ptrs, snap).(archive := archive)
    {
      lines, ptrs, snap := SnapshotMinute(m);
      archiveLastWritten := archiveLastWritten + snap;
      archiveMinutes := archiveMinutes + {m};
      archiveIdx := archiveIdx + OfMinute(active, m);
      openMinutes := openMinutes - {m};
      active := ExceptMinutes(active, {m});
    }

    method CloseMinute(m: int, ghost pending: seq<Bucket>, ghost written: seq<Line>)
      returns (lines: seq<Line>, ptrs: seq<Bucket>)
      requires Tied() && m in openMinutes
      requires Now().(archive := archive + pending).Consistent(written, history)
      modifies this`openMinutes, this`active, this`archiveMinutes, this`archiveIdx, this`archiveLastWritten
      ensures openMinutes == old(openMinutes) - {m} && Keeps(old(archiveIdx), archiveIdx)
      ensures Now().(archive := archive + (pending + ptrs)).Consistent(written + lines, history)
      ensures Positive(content) ==> Countable(lines)
    {
      ghost var s := Now();
      var snap;
      lines, ptrs, snap := MoveMinute(m);
      MinuteMovedConsistent(s, Now(), archive + pending, m, ptrs, snap, lines, written, history);
      AppendAssociative(archive, pending, ptrs);
    }

    /** Closes every open minute before the cutoff; `lines` are the full lines to append. */
    method CloseMinutes(cutoff: int) returns (lines: seq<Line>)
      requires Valid()
      modifies this`openMinutes, this`active, this`archive, this`archiveMinutes, this`archiveIdx, this`archiveLastWritten
      ensures Tied() && Ascending(archive) && Now().Consistent(flushed + lines, history)
      ensures openMinutes == Since(old(openMinutes), cutoff) && Keeps(old(archiveIdx), archiveIdx)
      ensures Positive(content) ==> Countable(lines)
    {
      hide Shape.Consistent;
      lines := [];
      var newPtrs: seq<Bucket> := [];
      var todo := set m | m in openMinutes && m < cutoff;
      assert archive + newPtrs == archive && flushed + lines == flushed;
      while todo != {}
        invariant todo <= openMinutes
        invariant openMinutes == todo + Since(old(openMinutes), cutoff)
        invariant Tied() && archive == old(archive) && Keeps(old(archiveIdx), archiveIdx)
        invariant Now().(archive := archive + newPtrs).Consistent(flushed + lines, history)
        invariant Positive(content) ==> Countable(lines)
        decreases todo
      {
        var m :| m in todo;
        var more, ptrs := CloseMinute(m, newPtrs, flushed + lines);
        AppendAssociative(flushed, lines, more);
        lines, newPtrs, todo := lines + more, newPtrs + ptrs, todo - {m};
      }
      SortArchive(newPtrs, flushed + lines);
    }

    /** Appends the newly closed buckets and sorts by minute. */
    method SortArchive(newPtrs: seq<Bucket>, ghost written: seq<Line>)
      requires Now().(archive := archive + newPtrs).Consistent(written, history)
      modifies this`archive
      ensures Ascending(archive) && Now().Consistent(written, history)
    {
      var sorted := SortByMinute(archive + newPtrs);
      ReorderedConsistent(Now().(archive := archive + newPtrs), sorted, written, history);
      archive := sorted;
    }

    /** The counters last written of a bucket, zero for one that no flush of this process has written. */
    function LastWritten(b: Bucket): Counters
      reads this`archiveLastWritten
    {
      if b in archiveLastWritten then archiveLastWritten[b] else ZERO
    }

    /** The delta of one dirty bucket; nothing when it has no new request. */
    method WriteDelta(b: Bucket, ghost written: seq<Line>) returns (lines: seq<Line>)
      requires Tied() && b in archiveDirty && Now().Consistent(written, history)
      modifies this`archiveDirty, this`archiveLastWritten, this`reloaded, this`history
      ensures Now() == DeltaWritten(old(Now()), b) && Now().Consistent(written + lines, history)
      ensures history == Recounted(old(history), old(Now()), b) && Countable(lines)
    {
      DirtyFacts(Now(), b, written, history);
      DeltaWrittenConsistent(Now(), b, written, history);
      var delta := Delta(b.c, LastWritten(b));
      lines := [];
      if delta.requests != 0 {
        lines := [Line(b.key, delta)];
        history := Recounted(history, Now(), b);
        archiveLastWritten, reloaded := archiveLastWritten[b := b.c], reloaded - {b};
      }
      archiveDirty := archiveDirty - {b};
      assert lines == [DeltaLine(old(Now()), b)];
    }

    /** The deltas of every dirty bucket; the set empties as they are written. */
    method WriteDeltas(ghost written: seq<Line>) returns (lines: seq<Line>)
      requires Tied() && Now().Consistent(written, history)
      modifies this`archiveDirty, this`archiveLastWritten, this`reloaded, this`history
      ensures archiveDirty == {} && Now().Consistent(written + lines, history)
      ensures reloaded == old(reloaded) - old(archiveDirty) && Countable(lines)
      ensures CountsAgain(old(Now()), old(history), history)
      ensures old(reloaded) == map[] ==> history == old(history)
    {
      hide Shape.Consistent;
      lines := [];
      ghost var sofar := written;
      assert written + lines == written;
      while archiveDirty != {}
        invariant sofar == written + lines && archiveDirty <= old(archiveDirty) && Countable(lines)
        invariant Now().Consistent(sofar, history)
        invariant reloaded == old(reloaded) - (old(archiveDirty) - archiveDirty)
        invariant history.SameIntake(old(history)) && SameRecounts(old(Now()), old(history), Now(), history)
        invariant old(reloaded) == map[] ==> history == old(history)
        decreases archiveDirty
      {
        var b :| b in archiveDirty;
        DeltaWrittenRecounts(old(Now()), old(history), Now(), b, sofar, history);
        var more := WriteDelta(b, sofar);
        AppendAssociative(written, lines, more);
        lines, sofar := lines + more, sofar + more;
      }
      AllRecounted(old(Now()), old(history), Now(), history);
    }

    /** How many buckets at the front of the sorted archive are older than `cutMin`. */
    method CountOlder(cutMin: int) returns (drop: nat)
      requires Ascending(archive)
      ensures WholeMinutes(archive, drop) && Older(archive, drop, cutMin)
    {
      drop := 0;
      while drop < |archive| && archive[drop].key.minute < cutMin
        invariant 0 <= drop <= |archive|
        invariant forall i :: 0 <= i < drop ==> archive[i].key.minute < cutMin
      {
        drop := drop + 1;
      }
    }

    method DropOldest(drop: nat)
      requires drop <= |archive|
      modifies this`archive, this`archiveMinutes, this`archiveIdx, this`archiveLastWritten, this`reloaded, this`evicted
      ensures Now() == Evicted(old(Now()), drop)
    {
      hide Members;
      hide ExceptMinutes;
      hide Minutes;
      var gone := archive[..drop];
      archiveMinutes := archiveMinutes - Minutes(gone);
      archiveIdx := ExceptMinutes(archiveIdx, Minutes(gone));
      archiveLastWritten := archiveLastWritten - Members(gone);
      reloaded, evicted := reloaded - Members(gone), evicted + Minutes(gone);
      archive := archive[drop..];
    }

    /** Drops the archived minutes older than the retention: a prefix, because the archive is sorted. */
    method Evict(now: int)
      requires Ascending(archive) && archiveDirty == {} && Now().Consistent(flushed, history)
      modifies this`archive, this`archiveMinutes, this`archiveIdx, this`archiveLastWritten, this`reloaded, this`evicted
      ensures Ascending(archive) && Now().Consistent(flushed, history)
      ensures Kept(old(archive), archive, archiveKeepMin, now)
      ensures reloaded == Within(old(reloaded), archive)
    {
      hide Shape.Consistent;
      hide Evicted;
      hide Kept;
      hide Within;
      hide Ascending;
      NothingEvicted(Now(), archiveKeepMin, now, flushed, history);
      if archiveKeepMin > 0 {
        var drop := CountOlder(now - archiveKeepMin * 60);
        EvictedIsKept(Now(), drop, archiveKeepMin, now, flushed, history);
        DropOldest(drop);
      }
    }

    /** What a flush has to write: full lines of closing minutes, then deltas of late arrivals. */
    method CollectLines(now: int) returns (closed: seq<Line>, dirty: seq<Line>)
      requires Valid()
      modifies this`openMinutes, this`active, this`archive, this`archiveMinutes, this`archiveIdx
      modifies this`archiveDirty, this`archiveLastWritten, this`reloaded, this`history, this`flushed
      ensures Tied() && Ascending(archive) && archiveDirty == {}
      ensures flushed == old(flushed) + closed + dirty && Now().Consistent(flushed, history)
      ensures openMinutes == Since(old(openMinutes), now - FLUSH_AGE)
      ensures forall b :: b in old(archive) ==> b in archive
      ensures Positive(content) ==> Countable(closed) && Countable(dirty)
      ensures reloaded == old(reloaded) - old(archiveDirty) && CountsAgain(old(Now()), old(history), history)
      ensures old(reloaded) == map[] ==> history == old(history)
    {
      hide Shape.Consistent;
      closed := CloseMinutes(now - FLUSH_AGE);
      ClosedRecounts(old(Now()), flushed, Now(), flushed + closed, history);
      dirty := WriteDeltas(flushed + closed);
      flushed := flushed + closed + dirty;
    }

    /** Appends line by line; `failed` are the positions at which the write fails, which is only logged. */
    method AppendToFile(lines: seq<Line>, failed: set<nat>, ghost before: seq<Line>)
      requires Parts(before, log, lost)
      modifies this`log, this`lost
      ensures Parts(before + lines, log, lost)
      ensures Countable(old(log)) && Countable(lines) ==> Countable(log)
      ensures failed == {} ==> log == old(log) + lines && lost == old(lost)
    {
      hide Parts;
      assert before + lines[..0] == before && old(log) + lines[..0] == old(log);
      for i := 0 to |lines|
        invariant Parts(before + lines[..i], log, lost)
        invariant Countable(old(log)) && Countable(lines) ==> Countable(log)
        invariant failed == {} ==> log == old(log) + lines[..i] && lost == old(lost)
      {
        assert lines[..i + 1] == lines[..i] + [lines[i]];
        AppendAssociative(before, lines[..i], [lines[i]]);
        AppendAssociative(old(log), lines[..i], [lines[i]]);
        PartsSnoc(before + lines[..i], log, lost, lines[i]);
        if i in failed {
          lost := lost + [lines[i]];
        } else {
          log := log + [lines[i]];
        }
      }
      assert lines[..|lines|] == lines;
    }

    /** What a flush does under the lock. The clock is read for each of the two. */
    method CollectAndEvict(now: int, later: int) returns (closed: seq<Line>, dirty: seq<Line>)
      requires Valid()
      modifies this`openMinutes, this`active, this`archive, this`archiveMinutes, this`archiveIdx, this`archiveDirty
      modifies this`archiveLastWritten, this`reloaded, this`evicted, this`history, this`flushed
      ensures Tied() && Ascending(archive) && archiveDirty == {}
      ensures flushed == old(flushed) + closed + dirty && Now().Consistent(flushed, history)
      ensures openMinutes == Since(old(openMinutes), now - FLUSH_AGE)
      ensures forall b :: b in archive ==> Retained(b.key.minute, archiveKeepMin, later)
      ensures forall b :: b in old(archive) && Retained(b.key.minute, archiveKeepMin, later) ==> b in archive
      ensures Positive(content) ==> Countable(closed) && Countable(dirty)
      ensures reloaded == Within(old(reloaded) - old(archiveDirty), archive)
      ensures CountsAgain(old(Now()), old(history), history)
      ensures old(reloaded) == map[] ==> history == old(history)
    {
      hide Shape.Consistent;
      hide Parts;
      closed, dirty := CollectLines(now);
      Evict(later);
    }

    /**
     One flush: collect and evict, then append what was collected, the lock released. The lines of a failed
     write are not collected again.
     */
    method FlushClosedMinutes(now: int, later: int, failedClosed: set<nat>, failedDirty: set<nat>)
      requires Valid()
      modifies this
      ensures Valid() && content == old(content)
      ensures archiveDirty == {} && openMinutes == Since(old(openMinutes), now - FLUSH_AGE)
      ensures forall b :: b in archive ==> Retained(b.key.minute, archiveKeepMin, later)
      ensures forall b :: b in old(archive) && Retained(b.key.minute, archiveKeepMin, later) ==> b in archive
      // Open stays what began less than the flush age ago.
      ensures forall m :: m in openMinutes <==> m in old(openMinutes) && m >= now - FLUSH_AGE
      // In the archive, what began at most the retention ago, or everything when there is none.
      ensures archiveKeepMin > 0 ==> forall b :: b in archive ==> b.key.minute >= later - archiveKeepMin * 60
      ensures forall b :: b in old(archive) && (archiveKeepMin <= 0 || b.key.minute >= later - archiveKeepMin * 60) ==>
        b in archive
      ensures reloaded == Within(old(reloaded) - old(archiveDirty), archive)
      ensures CountsAgain(old(Now()), old(history), history)
      ensures Positive(content) && Countable(old(log)) ==> Countable(log)
      ensures failedClosed == {} && failedDirty == {} ==> lost == old(lost)
      ensures old(reloaded) == map[] ==> history == old(history)
    {
      hide Shape.Consistent;
      hide Parts;
      hide Within;
      hide CountsAgain;
      hide Ascending;
      hide Positive;
      hide Countable;
      var closed, dirty := CollectAndEvict(now, later);
      AppendToFile(closed, failedClosed, old(flushed));
      AppendToFile(dirty, failedDirty, old(flushed) + closed);
    }
  }

  // ── Whole runs ──

  // A flush with the clock at its two readings, and the lines it cannot write.
  datatype Event =
    | Arrival(e: Entry, now: int)
    | Tick(now: int, later: int, failedClosed: set<nat>, failedDirty: set<nat>)

  // Every write of the run succeeds.
  predicate AllWritten(events: seq<Event>) {
    forall e :: e in events && e.Tick? ==> e.failedClosed == {} && e.failedDirty == {}
  }

  /** What a run is given, whichever bucket each entry ends up on. */
  ghost function Ingested(events: seq<Event>): seq<Line> {
    if events == [] then []
    else
      var n := |events| - 1;
      Ingested(events[..n])
      + if events[n].Arrival? then [LineOf(events[n])] else []
  }

  // ── What arrived, read off the entries ──

  ghost predicate ConcernsKey(event: Event, k: Key) {
    event.Arrival? && Concerns(event.e, event.now, k)
  }

  /** The amount of one counter in all entries of a key. */
  ghost function Arrived(events: seq<Event>, k: Key, f: Field): int {
    if events == [] then 0
    else
      var n := |events| - 1;
      Arrived(events[..n], k, f) + if ConcernsKey(events[n], k) then Own(events[n].e, f) else 0
  }

  /** The longest response time among them, at least 0, */
  ghost function ArrivedPeak(events: seq<Event>, k: Key): int {
    if events == [] then 0
    else
      var n := |events| - 1;
      if ConcernsKey(events[n], k) then Max(ArrivedPeak(events[..n], k), events[n].e.rtMs)
      else ArrivedPeak(events[..n], k)
  }

  /** and the longest time to a first chunk. */
  ghost function ArrivedFrtPeak(events: seq<Event>, k: Key): int {
    if events == [] then 0
    else
      var n := |events| - 1;
      if ConcernsKey(events[n], k) && events[n].e.frtMs.Some? then
        Max(ArrivedFrtPeak(events[..n], k), events[n].e.frtMs.value)
      else ArrivedFrtPeak(events[..n], k)
  }

  ghost function LineOf(event: Event): Line
    requires event.Arrival?
  {
    Line(KeyOf(event.e, event.now), Contribution(event.e))
  }

  lemma LineOfEvent(event: Event, k: Key, f: Field)
    requires event.Arrival?
    ensures LineOf(event).key == k <==> ConcernsKey(event, k)
    ensures Get(LineOf(event).c, f) == Own(event.e, f)
    ensures LineOf(event).c.rtMaxMs == event.e.rtMs && LineOf(event).c.frtMaxMs == FirstChunkMs(event.e)
  {
  }

  lemma ArrivedSnoc(events: seq<Event>, event: Event, k: Key, f: Field)
    ensures Arrived(events + [event], k, f) == Arrived(events, k, f) + if ConcernsKey(event, k) then Own(event.e, f) else 0
    ensures ArrivedPeak(events + [event], k)
         == if ConcernsKey(event, k) then Max(ArrivedPeak(events, k), event.e.rtMs) else ArrivedPeak(events, k)
    ensures ArrivedFrtPeak(events + [event], k)
         == if ConcernsKey(event, k) && event.e.frtMs.Some? then Max(ArrivedFrtPeak(events, k), event.e.frtMs.value)
            else ArrivedFrtPeak(events, k)
    ensures ArrivedFrtPeak(events, k) >= 0
    ensures Ingested(events + [event]) == Ingested(events) + if event.Arrival? then [LineOf(event)] else []
    decreases |events|
  {
    assert (events + [event])[..|events|] == events;
    if events != [] {
      ArrivedSnoc(events[..|events| - 1], events[|events| - 1], k, f);
    }
  }

  lemma {:induction false} IngestedIsArrived(events: seq<Event>, k: Key, f: Field)
    ensures SumOf(Ingested(events), k, f) == Arrived(events, k, f)
    ensures PeakOf(Ingested(events), k) == ArrivedPeak(events, k)
    ensures FrtPeakOf(Ingested(events), k) == ArrivedFrtPeak(events, k)
  {
    if events == [] {
      FrtPeakOfNothing(k);
    } else {
      hide SumOf, PeakOf, FrtPeakOf, LineOf, Own, Ingested, Arrived, ArrivedPeak, ArrivedFrtPeak;
      var init, last := events[..|events| - 1], events[|events| - 1];
      assert events == init + [last];
      IngestedIsArrived(init, k, f);
      ArrivedSnoc(init, last, k, f);
      if last.Arrival? {
        LineOfEvent(last, k, f);
        SumOfSnoc(Ingested(init), LineOf(last), k, f);
        PeakOfSnoc(Ingested(init), LineOf(last), k);
        FrtPeakOfSnoc(Ingested(init), LineOf(last), k);
      } else {
        assert Ingested(init) + [] == Ingested(init);
      }
    }
  }

  ghost predicate TookIn(h: History, onDisk: seq<Line>, lines: seq<Line>) {
    && h.carry == onDisk
    && (forall k, f :: SumOf(h.early, k, f) + SumOf(h.late, k, f) == SumOf(lines, k, f))
    && (forall k :: h.Peak(k) == Max(PeakOf(onDisk, k), PeakOf(lines, k)))
    && (forall k :: TookInFrt(h, onDisk, lines, k))
  }

  ghost predicate TookInFrt(h: History, onDisk: seq<Line>, lines: seq<Line>, k: Key) {
    Max(h.FrtPeak(k), FrtPeakOf(h.late, k)) == Max(FrtPeakOf(onDisk, k), FrtPeakOf(lines, k))
  }

  lemma TookInSums(h: History, lines: seq<Line>, l: Line, late: bool, k: Key, f: Field)
    requires SumOf(h.early, k, f) + SumOf(h.late, k, f) == SumOf(lines, k, f)
    ensures SumOf(h.Take(l, late).early, k, f) + SumOf(h.Take(l, late).late, k, f) == SumOf(lines + [l], k, f)
  {
    hide SumOf;
    SumOfSnoc(lines, l, k, f);
    SumOfSnoc(h.early, l, k, f);
    SumOfSnoc(h.late, l, k, f);
  }

  lemma TookInPeak(h: History, onDisk: seq<Line>, lines: seq<Line>, l: Line, late: bool, k: Key)
    requires h.carry == onDisk && h.Peak(k) == Max(PeakOf(onDisk, k), PeakOf(lines, k))
    ensures h.Take(l, late).Peak(k) == Max(PeakOf(onDisk, k), PeakOf(lines + [l], k))
  {
    hide PeakOf;
    PeakOfSnoc(lines, l, k);
    PeakOfSnoc(h.early, l, k);
    PeakOfSnoc(h.late, l, k);
  }

  lemma TookInFrtPeak(h: History, onDisk: seq<Line>, lines: seq<Line>, l: Line, late: bool, k: Key)
    requires h.carry == onDisk && TookInFrt(h, onDisk, lines, k)
    ensures TookInFrt(h.Take(l, late), onDisk, lines + [l], k)
  {
    hide FrtPeakOf;
    FrtPeakOfSnoc(lines, l, k);
    FrtPeakOfSnoc(h.early, l, k);
    FrtPeakOfSnoc(h.late, l, k);
  }

  lemma TookInOneMore(h: History, onDisk: seq<Line>, lines: seq<Line>, l: Line, late: bool)
    requires TookIn(h, onDisk, lines)
    ensures TookIn(h.Take(l, late), onDisk, lines + [l])
  {
    forall k, f
      ensures SumOf(h.Take(l, late).early, k, f) + SumOf(h.Take(l, late).late, k, f) == SumOf(lines + [l], k, f)
    {
      TookInSums(h, lines, l, late, k, f);
    }
    forall k
      ensures h.Take(l, late).Peak(k) == Max(PeakOf(onDisk, k), PeakOf(lines + [l], k))
    {
      TookInPeak(h, onDisk, lines, l, late, k);
    }
    forall k
      ensures TookInFrt(h.Take(l, late), onDisk, lines + [l], k)
    {
      TookInFrtPeak(h, onDisk, lines, l, late, k);
    }
  }

  lemma TookInFlush(s: Shape, h: History, h': History, onDisk: seq<Line>, lines: seq<Line>)
    requires TookIn(h, onDisk, lines) && CountsAgain(s, h, h')
    ensures TookIn(h', onDisk, lines)
  {
    forall k
      ensures TookInFrt(h', onDisk, lines, k)
    {
      assert TookInFrt(h, onDisk, lines, k);
    }
  }

  lemma TookInNothing(onDisk: seq<Line>)
    ensures TookIn(History(onDisk, [], [], []), onDisk, [])
  {
    forall k
      ensures TookInFrt(History(onDisk, [], [], []), onDisk, [], k)
    {
      PeakOfConcat(onDisk, [], k);
    }
  }

  // What the log will never have: the first-chunk counters of late entries, which no delta carries.
  ghost function Uncarried(h: History, k: Key, f: Field): int {
    if Carried(f) then 0 else SumOf(h.late, k, f)
  }

  // The sums of one key and counter: in the log, lost, still on the buckets and never carried are together
  // what the log began with, what arrived and what was counted again.
  ghost predicate SumsMeet(s: Shape, h: History, log: seq<Line>, lost: seq<Line>, onDisk: seq<Line>, events: seq<Event>,
                           k: Key, f: Field)
  {
    SumOf(log, k, f) + SumOf(lost, k, f) + s.Unwritten(k, f) + Uncarried(h, k, f)
    == SumOf(onDisk, k, f) + Arrived(events, k, f) + SumOf(h.overcount, k, f)
  }

  // The largest of the peaks of a key in the log, lost and on the buckets is that of the log and what arrived.
  ghost predicate PeaksMeet(s: Shape, h: History, log: seq<Line>, lost: seq<Line>, onDisk: seq<Line>, events: seq<Event>,
                            k: Key)
  {
    && Max(Max(PeakOf(log, k), PeakOf(lost, k)), s.LivePeak(k)) == Max(PeakOf(onDisk, k), ArrivedPeak(events, k))
    && Max(Max(FrtPeakOf(log, k), FrtPeakOf(lost, k)), Max(s.LiveFrtPeak(k), FrtPeakOf(h.late, k)))
       == Max(FrtPeakOf(onDisk, k), ArrivedFrtPeak(events, k))
  }

  lemma Accounted(s: Shape, flushed: seq<Line>, h: History, log: seq<Line>, lost: seq<Line>,
                  onDisk: seq<Line>, events: seq<Event>, k: Key, f: Field)
    requires s.Consistent(flushed, h) && Parts(flushed, log, lost) && TookIn(h, onDisk, Ingested(events))
    ensures SumsMeet(s, h, log, lost, onDisk, events, k, f)
    ensures PeaksMeet(s, h, log, lost, onDisk, events, k)
  {
    hide SumOf;
    hide PeakOf;
    hide FrtPeakOf;
    assert s.SumAgrees(flushed, h, k, f) && s.PeakAgrees(flushed, h, k) && s.FrtAgrees(flushed, h, k);
    assert TookInFrt(h, onDisk, Ingested(events), k);
    IngestedIsArrived(events, k, f);
  }

  // ── What a run after a reload counts again ──

  /** Some flush so far has dropped the minute. */
  ghost predicate Dropped(keepMin: int, events: seq<Event>, minute: int) {
    events != [] &&
    var n := |events| - 1;
    Dropped(keepMin, events[..n], minute) || (events[n].Tick? && !Retained(minute, keepMin, events[n].later))
  }

  /** The keys that got an entry before their minute was dropped. */
  ghost function Touched(keepMin: int, events: seq<Event>): set<Key> {
    if events == [] then {}
    else
      var n := |events| - 1;
      Touched(keepMin, events[..n])
      + if events[n].Arrival? then Hit(keepMin, events[..n], KeyOf(events[n].e, events[n].now)) else {}
  }

  ghost function Hit(keepMin: int, events: seq<Event>, k: Key): set<Key> {
    if Dropped(keepMin, events, k.minute) then {} else {k}
  }

  /** The same, read off the events: some entry of the key arrived before any flush had dropped its minute. */
  ghost predicate GotEntry(keepMin: int, events: seq<Event>, k: Key) {
    exists i :: 0 <= i < |events| && ConcernsKey(events[i], k) && !Dropped(keepMin, events[..i], k.minute)
  }

  lemma {:induction false} TouchedExactly(keepMin: int, events: seq<Event>, k: Key)
    ensures k in Touched(keepMin, events) <==> GotEntry(keepMin, events, k)
  {
    if events != [] {
      var n := |events| - 1;
      TouchedExactly(keepMin, events[..n], k);
      if GotEntry(keepMin, events[..n], k) {
        var i :| 0 <= i < n && ConcernsKey(events[..n][i], k) && !Dropped(keepMin, events[..n][..i], k.minute);
        assert events[..n][..i] == events[..i] && ConcernsKey(events[i], k);
      }
      if GotEntry(keepMin, events, k) {
        var i :| 0 <= i <= n && ConcernsKey(events[i], k) && !Dropped(keepMin, events[..i], k.minute);
        if i < n {
          assert events[..n][..i] == events[..i] && ConcernsKey(events[..n][i], k);
        }
      }
    }
  }

  // The buckets of a reload, by key.
  datatype Reloaded = Reloaded(idx: map<Key, Bucket>, held: map<Bucket, Counters>)
  {
    ghost predicate Valid() {
      && (forall k :: k in idx ==> idx[k].key == k && idx[k] in held)
      && (forall b :: b in held ==> b.key in idx && idx[b.key] == b)
    }

    ghost function Again(touched: set<Key>, k: Key, f: Field): int
      requires Valid()
    {
      if k in idx && k in touched then Get(Delta(held[idx[k]], ZERO), f) else 0
    }

    // Untouched, a reloaded bucket is as the reload left it; touched, it is dirty or has been written.
    ghost predicate Stands(s: Shape, k: Key, touched: bool, dropped: bool)
      requires k in idx
    {
      if dropped then idx[k] !in s.reloaded
      else
        && idx[k] in s.archive
        && (touched ==> idx[k] in s.dirty || idx[k] !in s.reloaded)
        && (!touched ==> idx[k] in s.reloaded && idx[k] !in s.dirty)
    }

    ghost predicate Accounts(s: Shape, h: History, keepMin: int, events: seq<Event>)
      requires Valid()
    {
      && (forall b :: b in s.reloaded ==> b in held && s.reloaded[b] == held[b])
      && (forall k :: k in idx ==> Stands(s, k, k in Touched(keepMin, events), Dropped(keepMin, events, k.minute)))
      && (forall k, f :: SumOf(h.overcount, k, f) + s.RecountOf(k, f) == Again(Touched(keepMin, events), k, f))
    }
  }

  lemma ChargesPositive(s: Shape, t: Shape, k: Key)
    requires Charges(s, t, k) && Positive(s.content)
    ensures Positive(t.content)
  {
  }

  // The bucket a reload built for a key, while no flush has written or dropped it.
  ghost predicate StillReloaded(r: Reloaded, s: Shape, k: Key) {
    k in r.idx && r.idx[k] in s.reloaded
  }

  lemma ReloadedIsIndexed(r: Reloaded, s: Shape, log: seq<Line>, h: History, k: Key)
    requires r.Valid() && s.Consistent(log, h) && forall b :: b in s.reloaded ==> b in r.held
    ensures k in s.archiveIdx && s.archiveIdx[k] in s.reloaded <==> StillReloaded(r, s, k)
    ensures StillReloaded(r, s, k) ==> s.archiveIdx[k] == r.idx[k]
  {
    if StillReloaded(r, s, k) {
      assert r.idx[k] in s.archive;
    }
  }

  // An entry of key `key` makes the bucket of that key dirty and no other.
  lemma ChargedDirty(r: Reloaded, s: Shape, log: seq<Line>, h: History, t: Shape, h': History, key: Key, k: Key)
    requires r.Valid() && s.Consistent(log, h) && t.Consistent(log, h') && k in r.idx && r.idx[k] in s.archive
    requires Charges(s, t, key)
    ensures r.idx[k] in t.archive
    ensures r.idx[k] in t.dirty <==> r.idx[k] in s.dirty || k == key
  {
    assert s.archiveIdx[k] == r.idx[k];
    assert t.archiveIdx[k] == r.idx[k];
  }

  lemma StandsOneMore(r: Reloaded, s: Shape, log: seq<Line>, h: History, t: Shape, h': History, key: Key, k: Key,
                      touched: bool, touched': bool, dropped: bool)
    requires !dropped ==> touched' == (touched || k == key)
    requires r.Valid() && s.Consistent(log, h) && t.Consistent(log, h') && Charges(s, t, key)
    requires k in r.idx && r.Stands(s, k, touched, dropped)
    ensures r.Stands(t, k, touched', dropped)
  {
    if !dropped {
      hide Shape.Consistent;
      ChargedDirty(r, s, log, h, t, h', key, k);
    }
  }

  lemma AgainOneMore(r: Reloaded, s: Shape, log: seq<Line>, h: History, t: Shape, h': History, k: Key, f: Field,
                     touched: bool, touched': bool, dropped: bool)
    requires r.Valid() && s.Consistent(log, h) && t.Consistent(log, h') && t.reloaded == s.reloaded
    requires forall b :: b in s.reloaded ==> b in r.held && s.reloaded[b] == r.held[b]
    requires k in r.idx ==> r.Stands(s, k, touched, dropped) && r.Stands(t, k, touched', dropped)
    requires touched ==> touched'
    requires dropped ==> touched' == touched
    ensures t.RecountOf(k, f) - s.RecountOf(k, f)
         == if k in r.idx && touched' && !touched then Get(Delta(r.held[r.idx[k]], ZERO), f) else 0
  {
    hide Shape.Consistent;
    ReloadedIsIndexed(r, s, log, h, k);
    ReloadedIsIndexed(r, t, log, h', k);
  }

  lemma AccountsOneMore(r: Reloaded, s: Shape, log: seq<Line>, h: History, t: Shape, h': History, keepMin: int,
                        events: seq<Event>, e: Entry, now: int)
    requires r.Valid() && r.Accounts(s, h, keepMin, events) && s.Consistent(log, h) && t.Consistent(log, h')
    requires Charges(s, t, KeyOf(e, now)) && h'.overcount == h.overcount
    ensures r.Accounts(t, h', keepMin, events + [Arrival(e, now)])
  {
    hide Shape.Consistent;
    hide Reloaded.Stands;
    var key, next := KeyOf(e, now), events + [Arrival(e, now)];
    assert next[..|events|] == events;
    forall k | k in r.idx
      ensures r.Stands(t, k, k in Touched(keepMin, next), Dropped(keepMin, next, k.minute))
    {
      StandsOneMore(r, s, log, h, t, h', key, k, k in Touched(keepMin, events), k in Touched(keepMin, next),
                    Dropped(keepMin, events, k.minute));
    }
    forall k, f
      ensures SumOf(h'.overcount, k, f) + t.RecountOf(k, f) == r.Again(Touched(keepMin, next), k, f)
    {
      assert SumOf(h.overcount, k, f) + s.RecountOf(k, f) == r.Again(Touched(keepMin, events), k, f);
      AgainOneMore(r, s, log, h, t, h', k, f, k in Touched(keepMin, events), k in Touched(keepMin, next),
                   Dropped(keepMin, events, k.minute));
    }
  }

  lemma AccountsFlush(r: Reloaded, s: Shape, log: seq<Line>, h: History, t: Shape, h': History, keepMin: int,
                      events: seq<Event>, tick: Event)
    requires tick.Tick? && r.Valid() && r.Accounts(s, h, keepMin, events) && s.Consistent(log, h)
    requires t.reloaded == Within(s.reloaded - s.dirty, t.archive) && t.dirty == {} && CountsAgain(s, h, h')
    requires forall b :: b in t.archive ==> Retained(b.key.minute, keepMin, tick.later)
    requires forall b :: b in s.archive && Retained(b.key.minute, keepMin, tick.later) ==> b in t.archive
    ensures r.Accounts(t, h', keepMin, events + [tick])
  {
    var next := events + [tick];
    assert next[..|events|] == events;
    var touched := Touched(keepMin, events);
    assert Touched(keepMin, next) == touched;
    forall k | k in r.idx
      ensures r.Stands(t, k, k in touched, Dropped(keepMin, next, k.minute))
    {
      assert r.Stands(s, k, k in touched, Dropped(keepMin, events, k.minute));
    }
    forall k, f
      ensures SumOf(h'.overcount, k, f) + t.RecountOf(k, f) == r.Again(touched, k, f)
    {
      assert SumOf(h.overcount, k, f) + s.RecountOf(k, f) == r.Again(touched, k, f);
    }
  }

  lemma AccountsNothing(r: Reloaded, s: Shape, h: History, keepMin: int)
    requires r.Valid() && h.overcount == [] && s.dirty == {} && s.reloaded == r.held
    requires forall k :: k in r.idx ==> r.idx[k] in s.archive
    ensures r.Accounts(s, h, keepMin, [])
  {
  }

  /** Any sequence of entries and flushes on a valid aggregator. */
  method Play(a: Aggregator, events: seq<Event>, ghost r: Reloaded, ghost onDisk: seq<Line>)
    requires a.Valid() && TookIn(a.history, onDisk, []) && r.Valid()
    requires r.Accounts(a.Now(), a.history, a.archiveKeepMin, []) && Positive(a.content) && Countable(a.log)
    modifies a, a.content.Keys
    ensures a.Valid() && TookIn(a.history, onDisk, Ingested(events))
    ensures r.Accounts(a.Now(), a.history, a.archiveKeepMin, events) && Countable(a.log)
    ensures AllWritten(events) ==> a.lost == old(a.lost)
  {
    hide Shape.Consistent;
    hide Reloaded.Accounts;
    hide TookIn;
    hide Positive;
    hide Countable;
    hide Charges;
    hide CountsAgain;
    for i := 0 to |events|
      invariant a.Valid() && fresh(a.content.Keys - old(a.content.Keys))
      invariant TookIn(a.history, onDisk, Ingested(events[..i]))
      invariant r.Accounts(a.Now(), a.history, a.archiveKeepMin, events[..i])
      invariant Positive(a.content) && Countable(a.log)
      invariant AllWritten(events) ==> a.lost == old(a.lost)
    {
      assert events[..i + 1] == events[..i] + [events[i]] && events[..i + 1][..i] == events[..i];
      ghost var s, log, h := a.Now(), a.flushed, a.history;
      match events[i]
      case Arrival(e, now) =>
        ghost var key := KeyOf(e, now);
        TookInOneMore(h, onDisk, Ingested(events[..i]), Line(key, Contribution(e)), key.minute in a.archiveMinutes);
        a.Ingest(e, now);
        ChargesPositive(s, a.Now(), key);
        AccountsOneMore(r, s, log, h, a.Now(), a.history, a.archiveKeepMin, events[..i], e, now);
      case Tick(now, later, failedClosed, failedDirty) =>
        assert Ingested(events[..i]) + [] == Ingested(events[..i]);
        a.FlushClosedMinutes(now, later, failedClosed, failedDirty);
        TookInFlush(s, h, a.history, onDisk, Ingested(events[..i]));
        AccountsFlush(r, s, log, h, a.Now(), a.history, a.archiveKeepMin, events[..i], events[i]);
    }
    assert events[..|events|] == events;
  }

  lemma RunAccounted(s: Shape, flushed: seq<Line>, h: History, log: seq<Line>, lost: seq<Line>, keepMin: int,
                     events: seq<Event>)
    requires s.Consistent(flushed, h) && Parts(flushed, log, lost) && TookIn(h, [], Ingested(events))
    requires Reloaded(map[], map[]).Accounts(s, h, keepMin, events)
    ensures forall k, f ::
      SumOf(log, k, f) + SumOf(lost, k, f) + s.Unwritten(k, f) + Uncarried(h, k, f) == Arrived(events, k, f)
    ensures forall k :: PeaksMeet(s, h, log, lost, [], events, k)
  {
    hide Shape.Consistent;
    hide Parts;
    hide TookIn;
    hide PeaksMeet;
    forall k, f
      ensures SumOf(log, k, f) + SumOf(lost, k, f) + s.Unwritten(k, f) + Uncarried(h, k, f) == Arrived(events, k, f)
    {
      Accounted(s, flushed, h, log, lost, [], events, k, f);
    }
    forall k
      ensures PeaksMeet(s, h, log, lost, [], events, k)
    {
      Accounted(s, flushed, h, log, lost, [], events, k, Requests);
    }
  }

  /**
   Any sequence of entries and flushes on an empty log: for every key and counter, the lines written, those
   whose write failed, what is still on the buckets and what no delta carries are together the counters of
   the entries of that minute, peer and stream; likewise their peaks.
   */
  method Run(keepMin: int, events: seq<Event>) returns (a: Aggregator)
    ensures fresh(a) && a.Valid() && Countable(a.log) && (AllWritten(events) ==> a.lost == [])
    ensures forall k, f ::
      SumOf(a.log, k, f) + SumOf(a.lost, k, f) + a.Now().Unwritten(k, f) + Uncarried(a.history, k, f)
      == Arrived(events, k, f)
    ensures forall k :: PeaksMeet(a.Now(), a.history, a.log, a.lost, [], events, k)
  {
    a := new Aggregator(keepMin, []);
    TookInNothing([]);
    ghost var r := Reloaded(map[], map[]);
    AccountsNothing(r, a.Now(), a.history, keepMin);
    Play(a, events, r, []);
    hide Shape.Consistent;
    hide Parts;
    hide TookIn;
    hide PeaksMeet;
    hide SumOf;
    hide PeakOf;
    hide Reloaded.Accounts;
    RunAccounted(a.Now(), a.flushed, a.history, a.log, a.lost, keepMin, events);
  }

  // ── After a restart ──

  // What the log holds twice: what today's file held of a key that got another entry in time.
  ghost function Twice(onDisk: seq<Line>, dayOf: int -> int, today: int, again: bool, k: Key, f: Field): int {
    if Carried(f) && dayOf(k.minute) == today && again then SumOf(onDisk, k, f) else 0
  }

  lemma ReloadedIsValid(t: Shape, onDisk: seq<Line>, dayOf: int -> int, today: int)
    requires IsReloaded(t, onDisk, dayOf, today)
    ensures Reloaded(t.archiveIdx, t.content).Valid()
    ensures forall k :: k in t.archiveIdx ==> t.archiveIdx[k] in t.archive
  {
  }

  lemma AgainIsTwice(t: Shape, onDisk: seq<Line>, dayOf: int -> int, today: int, touched: set<Key>, k: Key, f: Field)
    requires IsReloaded(t, onDisk, dayOf, today) && Reloaded(t.archiveIdx, t.content).Valid()
    ensures Reloaded(t.archiveIdx, t.content).Again(touched, k, f) == Twice(onDisk, dayOf, today, k in touched, k, f)
  {
    if dayOf(k.minute) == today && k !in t.archiveIdx {
      SumOfNothing(onDisk, k, f);
    }
  }

  // The log, what was lost, what is pending and what is never carried, against all that went in and what is
  // counted twice.
  ghost predicate RestartBalances(s: Shape, h: History, log: seq<Line>, lost: seq<Line>, onDisk: seq<Line>,
                                  dayOf: int -> int, today: int, keepMin: int, events: seq<Event>, k: Key, f: Field)
  {
    SumOf(log, k, f) + SumOf(lost, k, f) + s.Unwritten(k, f) + s.RecountOf(k, f) + Uncarried(h, k, f)
    == SumOf(onDisk, k, f) + Arrived(events, k, f) + Twice(onDisk, dayOf, today, GotEntry(keepMin, events, k), k, f)
  }

  ghost predicate IsExact(s: Shape, log: seq<Line>, onDisk: seq<Line>, events: seq<Event>, k: Key, f: Field) {
    SumOf(log, k, f) + s.Unwritten(k, f) == SumOf(onDisk, k, f) + Arrived(events, k, f)
  }

  lemma RestartAccounted(s: Shape, flushed: seq<Line>, h: History, log: seq<Line>, lost: seq<Line>, t: Shape,
                         onDisk: seq<Line>, dayOf: int -> int, today: int, keepMin: int, events: seq<Event>)
    requires s.Consistent(flushed, h) && Parts(flushed, log, lost) && TookIn(h, onDisk, Ingested(events))
    requires IsReloaded(t, onDisk, dayOf, today) && Reloaded(t.archiveIdx, t.content).Valid()
    requires Reloaded(t.archiveIdx, t.content).Accounts(s, h, keepMin, events)
    ensures forall k, f :: RestartBalances(s, h, log, lost, onDisk, dayOf, today, keepMin, events, k, f)
    ensures forall k :: PeaksMeet(s, h, log, lost, onDisk, events, k)
  {
    hide Shape.Consistent;
    hide Parts;
    hide TookIn;
    hide IsReloaded;
    hide PeaksMeet;
    forall k, f
      ensures RestartBalances(s, h, log, lost, onDisk, dayOf, today, keepMin, events, k, f)
    {
      Accounted(s, flushed, h, log, lost, onDisk, events, k, f);
      AgainIsTwice(t, onDisk, dayOf, today, Touched(keepMin, events), k, f);
      TouchedExactly(keepMin, events, k);
    }
    forall k
      ensures PeaksMeet(s, h, log, lost, onDisk, events, k)
    {
      Accounted(s, flushed, h, log, lost, onDisk, events, k, Requests);
    }
  }

  // With nothing pending and nothing lost, what is counted twice is all that is wrong.
  lemma RestartExact(s: Shape, h: History, log: seq<Line>, onDisk: seq<Line>, dayOf: int -> int, today: int, keepMin: int,
                     events: seq<Event>, k: Key, f: Field)
    requires RestartBalances(s, h, log, [], onDisk, dayOf, today, keepMin, events, k, f) && s.dirty == {} && Carried(f)
    ensures IsExact(s, log, onDisk, events, k, f)
       <==> (dayOf(k.minute) == today && GotEntry(keepMin, events, k) ==> SumOf(onDisk, k, f) == 0)
  {
  }

  /**
   A process that restarts on a log, reloads today's file and runs on: for every key and carried counter
   the log ends up too high by what the file held of the key, once, if the key got an entry before its
   minute was dropped, and is exact otherwise. With nothing dirty and all writes done it is exact if and
   only if that is zero. The log a run leaves is again one to restart on.
   */
  method RunAfterReload(keepMin: int, onDisk: seq<Line>, dayOf: int -> int, today: int, events: seq<Event>)
    returns (a: Aggregator)
    requires Countable(onDisk)
    ensures fresh(a) && a.Valid() && Countable(a.log) && (AllWritten(events) ==> a.lost == [])
    ensures forall k, f ::
      RestartBalances(a.Now(), a.history, a.log, a.lost, onDisk, dayOf, today, keepMin, events, k, f)
    ensures a.archiveDirty == {} && AllWritten(events) ==> forall k, f :: Carried(f) ==>
      (IsExact(a.Now(), a.log, onDisk, events, k, f)
       <==> (dayOf(k.minute) == today && GotEntry(keepMin, events, k) ==> SumOf(onDisk, k, f) == 0))
    ensures forall k :: PeaksMeet(a.Now(), a.history, a.log, a.lost, onDisk, events, k)
  {
    a := new Aggregator(keepMin, onDisk);
    a.Reload(dayOf, today);
    ghost var t := a.Now();
    ReloadedIsValid(t, onDisk, dayOf, today);
    TookInNothing(onDisk);
    ghost var r := Reloaded(t.archiveIdx, t.content);
    AccountsNothing(r, t, a.history, keepMin);
    Play(a, events, r, onDisk);
    hide Shape.Consistent;
    hide Parts;
    hide TookIn;
    hide IsReloaded;
    hide RestartBalances;
    hide IsExact;
    hide PeaksMeet;
    hide GotEntry;
    hide Reloaded.Accounts;
    RestartAccounted(a.Now(), a.flushed, a.history, a.log, a.lost, t, onDisk, dayOf, today, keepMin, events);
    if a.archiveDirty == {} && AllWritten(events) {
      forall k, f | Carried(f) {
        RestartExact(a.Now(), a.history, a.log, onDisk, dayOf, today, keepMin, events, k, f);
      }
    }
  }
}
