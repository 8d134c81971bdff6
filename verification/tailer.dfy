/**
 The exporter's tailer: where it starts, how it reads complete lines, rolls over days and persists its
 position. What a read delivers, and whether a save succeeds, are parameters.
 */
module Tailer {
  import opened LineStream
  import opened Wrappers

  datatype Record = Record(requestId: string, tsEnd: string, ts: string)

  // The day names the details file.
  datatype Checkpoint = Checkpoint(day: int, offset: nat, lastTs: string)

  const PERSIST_EVERY := 2000

  function FirstNonEmpty(a: string, b: string): string {
    if a != "" then a else b
  }

  // A bad line is skipped; a record already recovered over HTTP is not observed again.
  predicate Observes(r: Option<Record>, skip: set<string>) {
    r.Some? && (r.value.requestId == "" || r.value.requestId !in skip)
  }

  function Observed(lines: seq<string>, parse: string -> Option<Record>, skip: set<string>): seq<Record> {
    if lines == [] then []
    else
      var n := |lines| - 1;
      Observed(lines[..n], parse, skip) + if Observes(parse(lines[n]), skip) then [parse(lines[n]).value] else []
  }

  function LastTs(before: string, rs: seq<Record>): string {
    if rs == [] then before
    else
      var r := rs[|rs| - 1];
      var ts := FirstNonEmpty(r.tsEnd, r.ts);
      if ts != "" then ts else LastTs(before, rs[..|rs| - 1])
  }

  lemma ObservedSnoc(lines: seq<string>, line: string, parse: string -> Option<Record>, skip: set<string>)
    ensures Observed(lines + [line], parse, skip)
         == Observed(lines, parse, skip) + if Observes(parse(line), skip) then [parse(line).value] else []
  {
    assert (lines + [line])[..|lines|] == lines;
  }

  /** While de-duplication is on, nothing that was recovered is observed, and nothing else is dropped. */
  lemma {:induction false} NeverTwice(lines: seq<string>, parse: string -> Option<Record>, skip: set<string>)
    ensures forall r :: r in Observed(lines, parse, skip) ==> r.requestId == "" || r.requestId !in skip
    ensures forall l :: l in lines && parse(l).Some? && parse(l).value.requestId !in skip ==>
        parse(l).value in Observed(lines, parse, skip)
  {
    if lines != [] {
      var n := |lines| - 1;
      NeverTwice(lines[..n], parse, skip);
      assert lines == lines[..n] + [lines[n]];
    }
  }

  // What one read delivers from an offset: the bytes up to the end of the file, or up to an error.
  datatype Read = Unopened | Delivered(bytes: string, failed: bool)
  {
    function LinesFrom(offset: nat): seq<string> {
      if Delivered? && offset <= |bytes| then Lines(bytes, offset, |bytes|) else []
    }

    predicate More(offset: nat) {
      Delivered? && offset <= |bytes| && HasLine(bytes, offset)
    }
  }

  // One round of the main loop: the day it is, whether the current file is there, and what a read gives.
  datatype Round = Round(today: int, present: bool, read: Read, saves: nat -> bool)

  // Where the tailer reads, and whether it still remembers what was recovered.
  datatype Place = Place(day: int, offset: nat, open: bool)
  {
    predicate Gone(r: Round) {
      day != r.today && !r.present
    }

    function LinesOf(r: Round): seq<string> {
      if Gone(r) then [] else r.read.LinesFrom(offset)
    }

    // A clean end of the file without a complete line left: the live end, or time to roll.
    predicate AtEnd(r: Round) {
      r.read.Delivered? && !r.read.failed && !r.read.More(offset)
    }

    predicate Rolls(r: Round) {
      Gone(r) || (AtEnd(r) && day != r.today)
    }

    function Next(r: Round): Place {
      if Rolls(r) then Place(r.today, 0, false)
      else if AtEnd(r) then Place(day, offset, false)
      else Place(day, offset + |Joined(LinesOf(r))|, open)
    }
  }

  // One read: the position it begins at, the complete lines it delivers, and how they are handled.
  datatype Reading = Reading(from: Checkpoint, lines: seq<string>, parse: string -> Option<Record>, skip: set<string>)
  {
    // The position after the first k lines.
    function At(k: nat): Checkpoint
      requires k <= |lines|
    {
      Checkpoint(from.day, from.offset + |Joined(lines[..k])|, LastTs(from.lastTs, Observed(lines[..k], parse, skip)))
    }

    // The checkpoint after k lines: saved, where that succeeds, after every so many.
    function Saved(before: Option<Checkpoint>, k: nat, saves: nat -> bool): Option<Checkpoint>
      requires k <= |lines|
    {
      if k == 0 then before
      else if k % PERSIST_EVERY == 0 && saves(k) then Some(At(k))
      else Saved(before, k - 1, saves)
    }

    // And once more at the end, if there was a line at all.
    function Left(before: Option<Checkpoint>, saves: nat -> bool): Option<Checkpoint> {
      if lines != [] && saves(|lines|) then Some(At(|lines|)) else Saved(before, |lines|, saves)
    }
  }

  lemma {:induction false} LastTsConcat(before: string, a: seq<Record>, b: seq<Record>)
    ensures LastTs(before, a + b) == LastTs(LastTs(before, a), b)
  {
    if b == [] {
      assert a + b == a;
    } else {
      var n := |b| - 1;
      LastTsConcat(before, a, b[..n]);
      assert (a + b)[..|a + b| - 1] == a + b[..n];
    }
  }

  lemma {:induction false} JoinedSnoc(lines: seq<string>, line: string)
    ensures Joined(lines + [line]) == Joined(lines) + line
  {
    if lines == [] {
      assert [] + [line] == [line] && [line][1..] == [] && line + "" == line;
    } else {
      assert (lines + [line])[1..] == lines[1..] + [line];
      JoinedSnoc(lines[1..], line);
    }
  }

  // What one more line adds to a read.
  lemma OneMoreHandled(reading: Reading, k: nat)
    requires k < |reading.lines|
    ensures var line, now, next := reading.lines[k], reading.At(k), reading.At(k + 1);
      && next.day == now.day && next.offset == now.offset + |line|
      && next.lastTs == LastTs(now.lastTs, Observed([line], reading.parse, reading.skip))
      && Observed(reading.lines[..k + 1], reading.parse, reading.skip)
         == Observed(reading.lines[..k], reading.parse, reading.skip) + Observed([line], reading.parse, reading.skip)
  {
    var line, before := reading.lines[k], reading.lines[..k];
    assert reading.lines[..k + 1] == before + [line];
    JoinedSnoc(before, line);
    ObservedSnoc(before, line, reading.parse, reading.skip);
    ObservedSnoc([], line, reading.parse, reading.skip);
    assert [] + [line] == [line];
    LastTsConcat(reading.from.lastTs, Observed(before, reading.parse, reading.skip),
                 Observed([line], reading.parse, reading.skip));
  }

  // Of all lines from `from` on, the k up to `at` are followed by the one that begins there.
  lemma NextLine(s: string, from: nat, at: nat, k: nat)
    requires Cut(s, from, at) && HasLine(s, at) && k == |Lines(s, from, at)|
    ensures NextEnd(s, at) <= |s| && Cut(s, from, NextEnd(s, at))
    ensures var lines, e := Lines(s, from, |s|), NextEnd(s, at);
      k < |lines| && lines[k] == s[at..e] && k + 1 == |Lines(s, from, e)|
  {
    var e := NextEnd(s, at);
    OneMoreLine(s, from, at);
    LinesSplit(s, from, e, |s|);
  }

  /** Which checkpoint a read leaves, exactly: that of the last save that was due and succeeded. */
  lemma {:induction false} SavedExactly(reading: Reading, before: Option<Checkpoint>, n: nat, saves: nat -> bool) returns (k: nat)
    requires n <= |reading.lines|
    ensures k <= n && reading.Saved(before, n, saves) == if k == 0 then before else Some(reading.At(k))
    ensures k > 0 ==> k % PERSIST_EVERY == 0 && saves(k)
    ensures forall j :: k < j <= n && j % PERSIST_EVERY == 0 ==> !saves(j)
  {
    if n == 0 || (n % PERSIST_EVERY == 0 && saves(n)) {
      k := n;
    } else {
      k := SavedExactly(reading, before, n - 1, saves);
    }
  }

  lemma LeftExactly(reading: Reading, before: Option<Checkpoint>, saves: nat -> bool) returns (k: nat)
    ensures var n := |reading.lines|;
      && k <= n && reading.Left(before, saves) == (if k == 0 then before else Some(reading.At(k)))
      && (k > 0 ==> saves(k) && (k == n || k % PERSIST_EVERY == 0))
      && (forall j :: k < j <= n && (j == n || j % PERSIST_EVERY == 0) ==> !saves(j))
  {
    if reading.lines != [] && saves(|reading.lines|) {
      k := |reading.lines|;
    } else {
      k := SavedExactly(reading, before, |reading.lines|, saves);
    }
  }

  // The first k lines from a position end at a line end.
  lemma {:induction false} EndOfLines(s: string, from: nat, k: nat)
    requires from <= |s| && k <= |Lines(s, from, |s|)|
    ensures Cut(s, from, from + |Joined(Lines(s, from, |s|)[..k])|)
    decreases k
  {
    var lines := Lines(s, from, |s|);
    if k > 0 {
      var e := NextEnd(s, from);
      EndOfLines(s, e, k - 1);
      assert lines[..k] == [s[from..e]] + Lines(s, e, |s|)[..k - 1];
      assert lines[..k][1..] == Lines(s, e, |s|)[..k - 1];
    }
  }

  lemma {:induction false} JoinedUpTo(lines: seq<string>, k: nat)
    requires k <= |lines|
    ensures |Joined(lines[..k])| <= |Joined(lines)|
  {
    if k > 0 {
      JoinedUpTo(lines[1..], k - 1);
      assert lines[..k][1..] == lines[1..][..k - 1];
    }
  }

  lemma JoinedNotEmpty(s: string, from: nat, k: nat)
    requires from <= |s| && 0 < k <= |Lines(s, from, |s|)|
    ensures |Joined(Lines(s, from, |s|)[..k])| > 0
  {
    assert Lines(s, from, |s|)[..k][0] == s[from..NextEnd(s, from)];
  }

  // After k lines, if any, a read is at a line end past where it began.
  lemma AtLineEnd(reading: Reading, s: string, k: nat)
    requires reading.from.offset <= |s| && reading.lines == Lines(s, reading.from.offset, |s|) && 0 < k <= |reading.lines|
    ensures var from, at := reading.from.offset, reading.At(k).offset;
      from < at <= from + |Joined(reading.lines)| && Cut(s, from, at)
  {
    EndOfLines(s, reading.from.offset, k);
    JoinedUpTo(reading.lines, k);
    JoinedNotEmpty(s, reading.from.offset, k);
    hide Lines, Joined;
  }

  /** A checkpoint a read leaves is the one before it, or one at a line end it has read past, and no further. */
  lemma LeftNotAhead(reading: Reading, s: string, before: Option<Checkpoint>, saves: nat -> bool)
    requires reading.from.offset <= |s| && reading.lines == Lines(s, reading.from.offset, |s|)
    ensures var left, from := reading.Left(before, saves), reading.from;
      || left == before
      || (left.Some? && left.value.day == from.day && from.offset < left.value.offset <= from.offset + |Joined(reading.lines)|
          && Cut(s, from.offset, left.value.offset))
  {
    var k := LeftExactly(reading, before, saves);
    if k > 0 {
      AtLineEnd(reading, s, k);
      assert reading.At(k).day == reading.from.day;
    }
    hide Reading.Left, Reading.At, Lines, Joined, Cut;
  }

  lemma FirstOfLines(s: string, from: nat)
    requires from <= |s| && Lines(s, from, |s|) != []
    ensures HasLine(s, from)
  {
  }

  class Tailer {
    const parse: string -> Option<Record>
    var curDay: int
    var offset: nat
    var lastTs: string
    var seen: set<string>
    var dedupActive: bool
    var stored: Option<Checkpoint>   // the checkpoint file
    var observed: seq<Record>        // the metrics, as the records they have counted

    /** Where a process starts, from the checkpoint it finds and what an HTTP recovery observed. */
    constructor (parse: string -> Option<Record>, today: int, stored: Option<Checkpoint>, present: bool,
                 hasUrl: bool, recovered: seq<Record>)
      ensures this.parse == parse && this.stored == stored
      ensures stored.Some? && present ==>
        curDay == stored.value.day && offset == stored.value.offset && observed == [] && !dedupActive
      ensures !(stored.Some? && present) ==> curDay == today && offset == 0
      ensures dedupActive <==> stored.Some? && !present && hasUrl
      ensures dedupActive ==> observed == recovered && seen == set r | r in recovered && r.requestId != "" :: r.requestId
      ensures !dedupActive ==> observed == []
      ensures lastTs == LastTs(if stored.Some? then stored.value.lastTs else "", observed)
    {
      this.parse, this.stored := parse, stored;
      lastTs := if stored.Some? then stored.value.lastTs else "";
      observed, seen, dedupActive := [], {}, false;
      if stored.Some? && present {
        curDay, offset := stored.value.day, stored.value.offset;
      } else {
        curDay, offset := today, 0;
        if stored.Some? && hasUrl {
          observed, dedupActive := recovered, true;
          seen := set r | r in recovered && r.requestId != "" :: r.requestId;
          lastTs := LastTs(stored.value.lastTs, recovered);
        }
      }
    }

    function Skip(): set<string>
      reads this`seen, this`dedupActive
    {
      if dedupActive then seen else {}
    }

    /** One complete line: skipped, dropped as a duplicate, or observed. */
    method HandleLine(line: string)
      modifies this`observed, this`lastTs
      ensures observed == old(observed) + Observed([line], parse, Skip())
      ensures lastTs == LastTs(old(lastTs), Observed([line], parse, Skip()))
    {
      assert [line][..0] == [] && [] + [line] == [line];
      ObservedSnoc([], line, parse, Skip());
      var d := parse(line);
      if d.None? {
        assert Observed([line], parse, Skip()) == [];
        return;
      }
      if dedupActive && d.value.requestId != "" && d.value.requestId in seen {
        assert Observed([line], parse, Skip()) == [];
        return;
      }
      assert Observed([line], parse, Skip()) == [d.value];
      observed := observed + [d.value];
      var ts := FirstNonEmpty(d.value.tsEnd, d.value.ts);
      if ts != "" {
        lastTs := ts;
      }
    }

    /** A failed save leaves the old checkpoint: it is written beside it and renamed over it. */
    method Persist(saves: bool)
      modifies this`stored
      ensures stored == if saves then Some(Checkpoint(curDay, offset, lastTs)) else old(stored)
    {
      if saves {
        stored := Some(Checkpoint(curDay, offset, lastTs));
      }
    }

    method DropDedup()
      modifies this`seen, this`dedupActive
      ensures !dedupActive && (old(dedupActive) ==> seen == {})
    {
      if dedupActive {
        dedupActive, seen := false, {};
      }
    }

    ghost function ReadingOf(lines: seq<string>): Reading
      reads this`curDay, this`offset, this`lastTs, this`seen, this`dedupActive
    {
      Reading(Checkpoint(curDay, offset, lastTs), lines, parse, Skip())
    }

    /**
     Reads and handles every complete line from the offset on. A half line stays for the next read; an
     error is not the end of the file.
     */
    method ReadFrom(read: Read, saves: nat -> bool) returns (count: nat, atEOF: bool)
      modifies this`observed, this`lastTs, this`offset, this`stored
      ensures var lines := read.LinesFrom(old(offset));
        && count == |lines| && Checkpoint(curDay, offset, lastTs) == old(ReadingOf(lines)).At(count)
        && observed == old(observed) + Observed(lines, parse, Skip())
        && stored == old(ReadingOf(lines)).Left(old(stored), saves)
      ensures stored == old(stored)
        || (stored.Some? && stored.value.day == curDay && read.Delivered?
            && old(offset) < stored.value.offset <= offset && Cut(read.bytes, old(offset), stored.value.offset))
      ensures !read.More(offset) && (count == 0 <==> !read.More(old(offset)))
      ensures atEOF <==> read.Delivered? && !read.failed
    {
      count, atEOF := 0, read.Delivered? && !read.failed;
      ghost var lines := read.LinesFrom(offset);
      assert lines[..|lines|] == lines;
      if read.Unopened? || offset > |read.bytes| {
        return;
      }
      LeftNotAhead(ReadingOf(lines), read.bytes, stored, saves);
      count := ReadLines(read.bytes, saves);
      if count > 0 {
        Persist(saves(count));
      }
    }

    // The state after k lines of a read that found `had` observed and `before` stored.
    ghost predicate HasRead(reading: Reading, k: nat, had: seq<Record>, before: Option<Checkpoint>, saves: nat -> bool)
      reads this
    {
      && k <= |reading.lines| && reading.parse == parse && reading.skip == Skip()
      && Checkpoint(curDay, offset, lastTs) == reading.At(k)
      && observed == had + Observed(reading.lines[..k], parse, Skip())
      && stored == reading.Saved(before, k, saves)
    }

    method ReadLines(s: string, saves: nat -> bool) returns (count: nat)
      requires offset <= |s|
      modifies this`observed, this`lastTs, this`offset, this`stored
      ensures offset <= |s| && !HasLine(s, offset) && (count == 0 <==> !HasLine(s, old(offset)))
      ensures var lines := Lines(s, old(offset), |s|);
        count == |lines| && HasRead(old(ReadingOf(lines)), count, old(observed), old(stored), saves)
    {
      count := 0;
      ghost var start, reading := offset, ReadingOf(Lines(s, offset, |s|));
      assert reading.lines[..0] == [] && observed + [] == observed;
      assert HasRead(reading, 0, observed, stored, saves);
      assert Cut(s, start, start) && Lines(s, start, start) == [];
      hide HasRead, Lines, Cut, HasLine, NextEnd;
      while HasLine(s, offset)
        invariant offset <= |s| && Cut(s, start, offset) && count == |Lines(s, start, offset)|
        invariant HasRead(reading, count, old(observed), old(stored), saves)
        invariant count == 0 ==> offset == start
        decreases |s| - offset
      {
        NextLine(s, start, offset, count);
        ReadOne(s, reading, count, old(observed), old(stored), saves);
        count := count + 1;
      }
      NoMoreLines(s, start, offset);
      if count > 0 {
        FirstOfLines(s, start);
      }
    }

    // A line has been handled; the source saves here after every so many of them.
    method PersistIfDue(count: nat, saves: nat -> bool, ghost reading: Reading, ghost before: Option<Checkpoint>)
      requires 0 < count <= |reading.lines| && Checkpoint(curDay, offset, lastTs) == reading.At(count)
      requires stored == reading.Saved(before, count - 1, saves)
      modifies this`stored
      ensures stored == reading.Saved(before, count, saves)
    {
      hide Reading.At;
      if count % PERSIST_EVERY == 0 {
        Persist(saves(count));
      }
    }

    method TakeLine(s: string, ghost reading: Reading, ghost k: nat, ghost had: seq<Record>)
      requires offset <= |s| && HasLine(s, offset)
      requires reading.parse == parse && reading.skip == Skip()
      requires k < |reading.lines| && reading.lines[k] == s[offset..NextEnd(s, offset)]
      requires Checkpoint(curDay, offset, lastTs) == reading.At(k)
      requires observed == had + Observed(reading.lines[..k], parse, Skip())
      modifies this`observed, this`lastTs, this`offset
      ensures offset == NextEnd(s, old(offset)) && Checkpoint(curDay, offset, lastTs) == reading.At(k + 1)
      ensures observed == had + Observed(reading.lines[..k + 1], parse, Skip())
    {
      var e := NextEnd(s, offset);
      var line := s[offset..e];
      OneMoreHandled(reading, k);
      AppendAssociative(had, Observed(reading.lines[..k], parse, Skip()), Observed([line], parse, Skip()));
      hide Observed, LastTs, NextEnd, HasLine;
      HandleLine(line);
      offset := e;
    }

    method ReadOne(s: string, ghost reading: Reading, k: nat, ghost had: seq<Record>, ghost before: Option<Checkpoint>,
                   saves: nat -> bool)
      requires offset <= |s| && HasLine(s, offset)
      requires k < |reading.lines| && reading.lines[k] == s[offset..NextEnd(s, offset)]
      requires HasRead(reading, k, had, before, saves)
      modifies this`observed, this`lastTs, this`offset, this`stored
      ensures offset == NextEnd(s, old(offset)) && HasRead(reading, k + 1, had, before, saves)
    {
      hide Reading.At, Reading.Saved, Observed, LastTs, NextEnd, HasLine;
      TakeLine(s, reading, k, had);
      PersistIfDue(k + 1, saves, reading, before);
    }

    ghost function Here(): Place
      reads this`curDay, this`offset, this`dedupActive
    {
      Place(curDay, offset, dedupActive)
    }

    /** One round of the main loop. */
    method Turn(r: Round)
      modifies this
      ensures Here() == old(Here()).Next(r)
      ensures observed == old(observed) + Observed(old(Here()).LinesOf(r), parse, old(Skip()))
      ensures dedupActive ==> old(dedupActive) && seen == old(seen)
      ensures lastTs == LastTs(old(lastTs), Observed(old(Here()).LinesOf(r), parse, old(Skip())))
      // A roll saves the start of today's file; any other round what its read leaves.
      ensures stored ==
        if old(Here()).Rolls(r) then if r.saves(0) then Some(Checkpoint(r.today, 0, lastTs)) else old(stored)
        else old(ReadingOf(Here().LinesOf(r))).Left(old(stored), r.saves)
      // Other than by a roll the checkpoint moves only to a line end that this process has read past.
      ensures curDay == old(curDay) && stored != old(stored) && !old(Here()).Rolls(r) ==>
        && stored.Some? && stored.value.day == curDay && r.read.Delivered?
        && old(offset) < stored.value.offset <= offset && Cut(r.read.bytes, old(offset), stored.value.offset)
      // A file that is there is left only when it was read to its clean end without a complete line left.
      ensures r.present && curDay != old(curDay) ==> r.read.Delivered? && !r.read.failed && !r.read.More(old(offset))
      // And it is left then, or when it is gone: for the start of today's.
      ensures var over := old(curDay) != r.today &&
          (!r.present || (r.read.Delivered? && !r.read.failed && !r.read.More(old(offset))));
        && (over ==> curDay == r.today && offset == 0 && !dedupActive)
        && (!over ==> curDay == old(curDay) && offset >= old(offset) && !r.read.More(offset))
      // The duplicates are remembered until the live end of the file.
      ensures old(dedupActive) && !dedupActive && curDay == old(curDay) ==>
        r.read.Delivered? && !r.read.failed && !r.read.More(old(offset))
    {
      ghost var lines := Here().LinesOf(r);
      assert lines[..|lines|] == lines;
      if curDay != r.today {
        if !r.present {
          curDay, offset := r.today, 0;
          DropDedup();
          Persist(r.saves(0));
          return;
        }
        var n, atEOF := ReadFrom(r.read, r.saves);
        if n == 0 && atEOF {
          curDay, offset := r.today, 0;
          DropDedup();
          Persist(r.saves(0));
        }
        return;
      }
      var n, atEOF := ReadFrom(r.read, r.saves);
      if n == 0 && atEOF {
        DropDedup();
      }
    }
  }

  // ── From a recovery to the live end ──

  function PlaceAfter(p: Place, rounds: seq<Round>): Place {
    if |rounds| == 0 then p else PlaceAfter(p, rounds[..|rounds| - 1]).Next(rounds[|rounds| - 1])
  }

  // The lines read while what was recovered is remembered.
  function Caught(p: Place, rounds: seq<Round>): seq<string> {
    if |rounds| == 0 then []
    else
      var n := |rounds| - 1;
      var q := PlaceAfter(p, rounds[..n]);
      Caught(p, rounds[..n]) + if q.open then q.LinesOf(rounds[n]) else []
  }

  // The lines read after that.
  function Live(p: Place, rounds: seq<Round>): seq<string> {
    if |rounds| == 0 then []
    else
      var n := |rounds| - 1;
      var q := PlaceAfter(p, rounds[..n]);
      Live(p, rounds[..n]) + if q.open then [] else q.LinesOf(rounds[n])
  }

  function Ids(rs: seq<Record>): set<string> {
    set r | r in rs && r.requestId != "" :: r.requestId
  }

  // How often an id has been counted.
  function Times(rs: seq<Record>, id: string): nat {
    if rs == [] then 0
    else Times(rs[..|rs| - 1], id) + if rs[|rs| - 1].requestId == id then 1 else 0
  }

  lemma {:induction false} ObservedConcat(a: seq<string>, b: seq<string>, parse: string -> Option<Record>, skip: set<string>)
    ensures Observed(a + b, parse, skip) == Observed(a, parse, skip) + Observed(b, parse, skip)
  {
    if b == [] {
      assert a + b == a;
    } else {
      var init, last := b[..|b| - 1], b[|b| - 1];
      assert b == init + [last] && a + b == (a + init) + [last];
      hide Observed;
      ObservedConcat(a, init, parse, skip);
      ObservedSnoc(a + init, last, parse, skip);
      ObservedSnoc(init, last, parse, skip);
    }
  }

  lemma {:induction false} TimesConcat(a: seq<Record>, b: seq<Record>, id: string)
    ensures Times(a + b, id) == Times(a, id) + Times(b, id)
  {
    if b == [] {
      assert a + b == a;
    } else {
      var n := |b| - 1;
      TimesConcat(a, b[..n], id);
      assert (a + b)[..|a + b| - 1] == a + b[..n];
    }
  }

  lemma TimesSnoc(rs: seq<Record>, r: Record, id: string)
    ensures Times(rs + [r], id) == Times(rs, id) + if r.requestId == id then 1 else 0
  {
    assert (rs + [r])[..|rs|] == rs;
  }

  // De-duplication takes away exactly the recovered ids.
  lemma {:induction false} ObservedTimes(lines: seq<string>, parse: string -> Option<Record>, skip: set<string>, id: string)
    ensures Times(Observed(lines, parse, skip), id)
         == if id != "" && id in skip then 0 else Times(Observed(lines, parse, {}), id)
  {
    if lines != [] {
      var init, last := lines[..|lines| - 1], lines[|lines| - 1];
      assert lines == init + [last];
      hide Observed;
      hide Times;
      ObservedTimes(init, parse, skip, id);
      ObservedSnoc(init, last, parse, skip);
      ObservedSnoc(init, last, parse, {});
      var kept, all := Observed(init, parse, skip), Observed(init, parse, {});
      assert kept + [] == kept && all + [] == all;
      if parse(last).Some? {
        TimesSnoc(kept, parse(last).value, id);
        TimesSnoc(all, parse(last).value, id);
      }
    }
  }

  lemma {:induction false} NothingLiveWhileOpen(p: Place, rounds: seq<Round>)
    requires PlaceAfter(p, rounds).open
    ensures p.open && Live(p, rounds) == []
  {
    if |rounds| > 0 {
      NothingLiveWhileOpen(p, rounds[..|rounds| - 1]);
    }
  }

  // Everything counted: what was recovered, what was caught up on, and what came live.
  function Told(p: Place, rounds: seq<Round>, recovered: seq<Record>, parse: string -> Option<Record>): seq<Record> {
    recovered + Observed(Caught(p, rounds), parse, Ids(recovered)) + Observed(Live(p, rounds), parse, {})
  }

  lemma RoundSnoc(p: Place, rounds: seq<Round>, r: Round)
    ensures var q := PlaceAfter(p, rounds);
      && PlaceAfter(p, rounds + [r]) == q.Next(r)
      && Caught(p, rounds + [r]) == (if q.open then Caught(p, rounds) + q.LinesOf(r) else Caught(p, rounds))
      && Live(p, rounds + [r]) == (if q.open then Live(p, rounds) else Live(p, rounds) + q.LinesOf(r))
  {
    assert (rounds + [r])[..|rounds|] == rounds;
    assert Caught(p, rounds) + [] == Caught(p, rounds) && Live(p, rounds) + [] == Live(p, rounds);
  }

  lemma ToldOneMore(p: Place, rounds: seq<Round>, r: Round, recovered: seq<Record>, parse: string -> Option<Record>)
    ensures var q := PlaceAfter(p, rounds);
      && PlaceAfter(p, rounds + [r]) == q.Next(r)
      && Told(p, rounds + [r], recovered, parse)
         == Told(p, rounds, recovered, parse) + Observed(q.LinesOf(r), parse, if q.open then Ids(recovered) else {})
  {
    hide PlaceAfter;
    hide Caught;
    hide Live;
    hide Observed;
    hide Place.LinesOf;
    hide Place.Next;
    var q := PlaceAfter(p, rounds);
    RoundSnoc(p, rounds, r);
    var before := recovered + Observed(Caught(p, rounds), parse, Ids(recovered));
    if q.open {
      NothingLiveWhileOpen(p, rounds);
      ObservedNone(parse);
      ObservedConcat(Caught(p, rounds), q.LinesOf(r), parse, Ids(recovered));
      AppendAssociative(recovered, Observed(Caught(p, rounds), parse, Ids(recovered)),
                        Observed(q.LinesOf(r), parse, Ids(recovered)));
      assert before + [] == before;
      var all := before + Observed(q.LinesOf(r), parse, Ids(recovered));
      assert all + [] == all;
    } else {
      ObservedConcat(Live(p, rounds), q.LinesOf(r), parse, {});
      AppendAssociative(before, Observed(Live(p, rounds), parse, {}), Observed(q.LinesOf(r), parse, {}));
    }
  }

  lemma ObservedNone(parse: string -> Option<Record>)
    ensures Observed([], parse, {}) == []
  {
  }

  lemma ToldTimes(p: Place, rounds: seq<Round>, recovered: seq<Record>, parse: string -> Option<Record>, id: string)
    requires id in Ids(recovered)
    ensures Times(Told(p, rounds, recovered, parse), id)
         == Times(recovered, id) + Times(Observed(Live(p, rounds), parse, {}), id)
  {
    var caught := Observed(Caught(p, rounds), parse, Ids(recovered));
    ObservedTimes(Caught(p, rounds), parse, Ids(recovered), id);
    TimesConcat(recovered, caught, id);
    TimesConcat(recovered + caught, Observed(Live(p, rounds), parse, {}), id);
  }

  lemma ToldAllTimes(p: Place, rounds: seq<Round>, recovered: seq<Record>, parse: string -> Option<Record>)
    ensures forall id :: id in Ids(recovered) ==>
      Times(Told(p, rounds, recovered, parse), id)
      == Times(recovered, id) + Times(Observed(Live(p, rounds), parse, {}), id)
  {
    forall id | id in Ids(recovered) {
      ToldTimes(p, rounds, recovered, parse, id);
    }
  }

  // ── A restart on the stored checkpoint ──

  function FileOf(files: map<int, string>, day: int): string {
    if day in files then files[day] else ""
  }

  // What a round reads is what its file, as it is in the end, began with at the time.
  ghost predicate ReadsPart(q: Place, r: Round, files: map<int, string>) {
    !q.Gone(r) && r.read.Delivered? ==> r.read.bytes <= FileOf(files, q.day)
  }

  ghost predicate ReadsParts(p: Place, rounds: seq<Round>, files: map<int, string>) {
    forall i :: 0 <= i < |rounds| ==> ReadsPart(PlaceAfter(p, rounds[..i]), rounds[i], files)
  }

  // The round handles the line that begins at `i` of a day's file.
  ghost predicate Takes(q: Place, r: Round, day: int, i: nat) {
    && q.day == day && !q.Gone(r) && r.read.Delivered? && q.offset <= i && Cut(r.read.bytes, q.offset, i)
    && HasLine(r.read.bytes, i)
  }

  ghost predicate Took(p: Place, rounds: seq<Round>, day: int, i: nat) {
    exists j :: 0 <= j < |rounds| && Takes(PlaceAfter(p, rounds[..j]), rounds[j], day, i)
  }

  // The position is a line end of its file, and each line before it was handled in one of the rounds, or
  // was before the place they began at.
  ghost predicate NoneSkipped(p: Place, rounds: seq<Round>, files: map<int, string>, day: int, offset: nat) {
    var s := FileOf(files, day);
    && Cut(s, 0, offset)
    && forall i: nat :: i < offset && Cut(s, 0, i) ==> Took(p, rounds, day, i) || (day == p.day && i < p.offset)
  }

  lemma {:induction false} LineAmong(s: string, from: nat, i: nat)
    requires Cut(s, from, i) && HasLine(s, i)
    ensures s[i..NextEnd(s, i)] in Lines(s, from, |s|)
  {
    LinesSplit(s, from, i, |s|);
    assert s[i..NextEnd(s, i)] == Lines(s, i, |s|)[0];
  }

  /** A line a round takes is among those it handles. */
  lemma TakenIsHandled(q: Place, r: Round, day: int, i: nat)
    requires Takes(q, r, day, i)
    ensures r.read.bytes[i..NextEnd(r.read.bytes, i)] in q.LinesOf(r)
  {
    LineAmong(r.read.bytes, q.offset, i);
  }

  lemma TookMore(p: Place, rounds: seq<Round>, r: Round, day: int, i: nat)
    requires Took(p, rounds, day, i) || Takes(PlaceAfter(p, rounds), r, day, i)
    ensures Took(p, rounds + [r], day, i)
  {
    var more := rounds + [r];
    if Took(p, rounds, day, i) {
      var j :| 0 <= j < |rounds| && Takes(PlaceAfter(p, rounds[..j]), rounds[j], day, i);
      assert more[..j] == rounds[..j] && more[j] == rounds[j];
    } else {
      assert more[..|rounds|] == rounds && more[|rounds|] == r;
    }
  }

  lemma {:induction false} NewlineLater(s: string, i: nat, at: nat)
    requires i < at <= |s| && s[at - 1] == '\n'
    ensures HasLine(s, i)
    decreases at - i
  {
    if s[i] != '\n' {
      NewlineLater(s, i + 1, at);
    }
  }

  // A round takes each line of its file that begins between its offset and the end of the k-th line it reads.
  lemma TakesUpTo(q: Place, r: Round, files: map<int, string>, k: nat, i: nat)
    requires ReadsPart(q, r, files) && 0 < k <= |q.LinesOf(r)| && Cut(FileOf(files, q.day), 0, i)
    ensures var at := q.offset + |Joined(q.LinesOf(r)[..k])|;
      at <= |FileOf(files, q.day)| && Cut(FileOf(files, q.day), 0, at) && (q.offset <= i < at ==> Takes(q, r, q.day, i))
  {
    hide Lines, Joined;
    var at := q.offset + |Joined(q.LinesOf(r)[..k])|;
    EndOfLines(r.read.bytes, q.offset, k);
    assert at > q.offset by {
      JoinedNotEmpty(r.read.bytes, q.offset, k);
    }
    if q.offset <= i < at {
      NewlineLater(r.read.bytes, i, at);
    }
  }

  // Where a round that begins at `q` is after k lines.
  function Reached(q: Place, r: Round, k: nat): nat
    requires k <= |q.LinesOf(r)|
  {
    q.offset + |Joined(q.LinesOf(r)[..k])|
  }

  lemma TookUpTo(p: Place, rounds: seq<Round>, r: Round, files: map<int, string>, k: nat, i: nat)
    requires var q := PlaceAfter(p, rounds);
      && NoneSkipped(p, rounds, files, q.day, q.offset) && ReadsPart(q, r, files) && k <= |q.LinesOf(r)|
      && i < Reached(q, r, k) && Cut(FileOf(files, q.day), 0, i)
    ensures var q := PlaceAfter(p, rounds); Took(p, rounds + [r], q.day, i) || (q.day == p.day && i < p.offset)
  {
    hide PlaceAfter, Took, Takes, Place.LinesOf, ReadsPart;
    var q := PlaceAfter(p, rounds);
    if i >= q.offset {
      assert k > 0 by {
        assert q.LinesOf(r)[..0] == [];
      }
      TakesUpTo(q, r, files, k, i);
      TookMore(p, rounds, r, q.day, i);
    } else if Took(p, rounds, q.day, i) {
      TookMore(p, rounds, r, q.day, i);
    }
  }

  // Up to a line end that a round has read to, none is skipped if none was before it.
  lemma NoneSkippedByRound(p: Place, rounds: seq<Round>, r: Round, files: map<int, string>, k: nat)
    requires var q := PlaceAfter(p, rounds); NoneSkipped(p, rounds, files, q.day, q.offset) && ReadsPart(q, r, files)
    requires k <= |PlaceAfter(p, rounds).LinesOf(r)|
    ensures var q := PlaceAfter(p, rounds); NoneSkipped(p, rounds + [r], files, q.day, Reached(q, r, k))
  {
    hide PlaceAfter, Took, Takes, Place.LinesOf, ReadsPart, Cut;
    var q := PlaceAfter(p, rounds);
    assert Cut(FileOf(files, q.day), 0, Reached(q, r, k)) by {
      if k > 0 {
        TakesUpTo(q, r, files, k, q.offset);
      } else {
        assert q.LinesOf(r)[..0] == [];
      }
    }
    hide Reached;
    forall i: nat | i < Reached(q, r, k) && Cut(FileOf(files, q.day), 0, i)
      ensures Took(p, rounds + [r], q.day, i) || (q.day == p.day && i < p.offset)
    {
      TookUpTo(p, rounds, r, files, k, i);
    }
  }

  lemma NoneSkippedStays(p: Place, rounds: seq<Round>, r: Round, files: map<int, string>, day: int, offset: nat)
    requires NoneSkipped(p, rounds, files, day, offset)
    ensures NoneSkipped(p, rounds + [r], files, day, offset)
  {
    forall i: nat | i < offset && Took(p, rounds, day, i) {
      TookMore(p, rounds, r, day, i);
    }
  }

  // Neither where the process is nor what it has stored, since it started, is past an unhandled line.
  ghost predicate Restartable(p: Place, rounds: seq<Round>, files: map<int, string>, before: Option<Checkpoint>,
                              stored: Option<Checkpoint>) {
    && NoneSkipped(p, rounds, files, PlaceAfter(p, rounds).day, PlaceAfter(p, rounds).offset)
    && (stored == before || (stored.Some? && NoneSkipped(p, rounds, files, stored.value.day, stored.value.offset)))
  }

  lemma PlaceStep(p: Place, rounds: seq<Round>, r: Round, files: map<int, string>)
    requires var q := PlaceAfter(p, rounds); NoneSkipped(p, rounds, files, q.day, q.offset) && ReadsPart(q, r, files)
    ensures var t := PlaceAfter(p, rounds + [r]); NoneSkipped(p, rounds + [r], files, t.day, t.offset)
  {
    hide NoneSkipped, PlaceAfter, ReadsPart;
    var q := PlaceAfter(p, rounds);
    RoundSnoc(p, rounds, r);
    if q.Rolls(r) {
      FromTheStart(p, rounds + [r], files, r.today);
    } else if q.AtEnd(r) {
      NoneSkippedStays(p, rounds, r, files, q.day, q.offset);
    } else {
      var lines := q.LinesOf(r);
      assert lines[..|lines|] == lines;
      NoneSkippedByRound(p, rounds, r, files, |lines|);
    }
  }

  lemma LeftStep(p: Place, rounds: seq<Round>, r: Round, files: map<int, string>, stored: Option<Checkpoint>, reading: Reading)
    requires var q := PlaceAfter(p, rounds);
      && NoneSkipped(p, rounds, files, q.day, q.offset) && ReadsPart(q, r, files)
      && reading.from.day == q.day && reading.from.offset == q.offset && reading.lines == q.LinesOf(r)
    ensures var left := reading.Left(stored, r.saves);
      left == stored || (left.Some? && NoneSkipped(p, rounds + [r], files, left.value.day, left.value.offset))
  {
    hide NoneSkipped, PlaceAfter, ReadsPart, LastTs, Observed, Place.LinesOf;
    var k := LeftExactly(reading, stored, r.saves);
    NoneSkippedByRound(p, rounds, r, files, k);
  }

  /** Each round keeps it so, whether it rolls, reads or waits, and whichever saves succeed. */
  lemma RestartableStep(p: Place, rounds: seq<Round>, r: Round, files: map<int, string>, before: Option<Checkpoint>,
                        stored: Option<Checkpoint>, reading: Reading, lastTs: string)
    requires Restartable(p, rounds, files, before, stored) && ReadsPart(PlaceAfter(p, rounds), r, files)
    requires var q := PlaceAfter(p, rounds);
      reading.from.day == q.day && reading.from.offset == q.offset && reading.lines == q.LinesOf(r)
    ensures Restartable(p, rounds + [r], files, before,
                        if PlaceAfter(p, rounds).Rolls(r) then
                          if r.saves(0) then Some(Checkpoint(r.today, 0, lastTs)) else stored
                        else reading.Left(stored, r.saves))
  {
    hide NoneSkipped, PlaceAfter, ReadsPart, Place.LinesOf, Place.Rolls, Reading.Left;
    PlaceStep(p, rounds, r, files);
    LeftStep(p, rounds, r, files, stored, reading);
    FromTheStart(p, rounds + [r], files, r.today);
    if stored != before {
      NoneSkippedStays(p, rounds, r, files, stored.value.day, stored.value.offset);
    }
  }

  lemma FromTheStart(p: Place, rounds: seq<Round>, files: map<int, string>, day: int)
    ensures NoneSkipped(p, rounds, files, day, 0)
  {
  }

  // ── A process from its start ──

  // Where a process starts; it remembers what it recovered over HTTP, when that is how it started.
  function StartOf(today: int, stored: Option<Checkpoint>, present: bool, hasUrl: bool): Place {
    if stored.Some? && present then Place(stored.value.day, stored.value.offset, false)
    else Place(today, 0, stored.Some? && hasUrl)
  }

  /**
   A process, however it starts, for any number of rounds. Up to the live end of the file no id it recovered
   over HTTP is counted again and nothing else is dropped; after that every line counts. If the files only
   grow, no restart on what it has stored since, or would store now, skips a line that was not handled.
   */
  method Follow(parse: string -> Option<Record>, today: int, stored: Option<Checkpoint>, present: bool, hasUrl: bool,
                recovered: seq<Record>, rounds: seq<Round>, ghost files: map<int, string>) returns (t: Tailer)
    ensures var start := StartOf(today, stored, present, hasUrl);
      var got := if start.open then recovered else [];
      && fresh(t) && t.Here() == PlaceAfter(start, rounds) && t.observed == Told(start, rounds, got, parse)
      && t.lastTs == LastTs(if stored.Some? then stored.value.lastTs else "", t.observed)
      && (t.dedupActive ==> Live(start, rounds) == [])
      && (forall id :: id in Ids(got) ==>
            Times(t.observed, id) == Times(got, id) + Times(Observed(Live(start, rounds), parse, {}), id))
      && (ReadsParts(start, rounds, files) && Cut(FileOf(files, start.day), 0, start.offset) ==>
            Restartable(start, rounds, files, stored, t.stored))
  {
    t := new Tailer(parse, today, stored, present, hasUrl, recovered);
    ghost var start := StartOf(today, stored, present, hasUrl);
    ghost var got := if start.open then recovered else [];
    ghost var grows := ReadsParts(start, rounds, files) && Cut(FileOf(files, start.day), 0, start.offset);
    assert rounds[..0] == [] && Told(start, [], got, parse) == got;
    assert Following(t, start, [], got, stored) && (grows ==> Restartable(start, [], files, stored, t.stored));
    hide Told, Restartable, Live, Times, Observed, PlaceAfter, ReadsPart, Ids, LastTs, FileOf, Cut;
    FollowRounds(t, start, rounds, got, stored, files, grows);
    if t.dedupActive {
      NothingLiveWhileOpen(start, rounds);
    }
    ToldAllTimes(start, rounds, got, parse);
  }

  method FollowRounds(t: Tailer, ghost start: Place, rounds: seq<Round>, ghost got: seq<Record>,
                      ghost stored: Option<Checkpoint>, ghost files: map<int, string>, ghost grows: bool)
    requires Following(t, start, [], got, stored)
    requires grows ==> Restartable(start, [], files, stored, t.stored) && ReadsParts(start, rounds, files)
    modifies t
    ensures Following(t, start, rounds, got, stored)
    ensures grows ==> Restartable(start, rounds, files, stored, t.stored)
  {
    hide Following, Restartable, ReadsPart, PlaceAfter;
    assert rounds[..0] == [];
    for i := 0 to |rounds|
      invariant Following(t, start, rounds[..i], got, stored)
      invariant grows ==> Restartable(start, rounds[..i], files, stored, t.stored)
    {
      assert rounds[..i + 1] == rounds[..i] + [rounds[i]];
      OneMore(t, start, rounds[..i], rounds[i], got, stored, files, grows);
    }
    assert rounds[..|rounds|] == rounds;
  }

  ghost predicate Following(t: Tailer, start: Place, rounds: seq<Round>, got: seq<Record>, stored: Option<Checkpoint>)
    reads t
  {
    && t.Here() == PlaceAfter(start, rounds) && (t.dedupActive ==> start.open && t.seen == Ids(got))
    && t.observed == Told(start, rounds, got, t.parse)
    && t.lastTs == LastTs(if stored.Some? then stored.value.lastTs else "", t.observed)
  }

  method OneMore(t: Tailer, ghost start: Place, ghost rounds: seq<Round>, r: Round, ghost got: seq<Record>,
                 ghost stored: Option<Checkpoint>, ghost files: map<int, string>, ghost grows: bool)
    requires Following(t, start, rounds, got, stored)
    requires grows ==> Restartable(start, rounds, files, stored, t.stored) && ReadsPart(PlaceAfter(start, rounds), r, files)
    modifies t
    ensures Following(t, start, rounds + [r], got, stored)
    ensures grows ==> Restartable(start, rounds + [r], files, stored, t.stored)
  {
    ghost var before, reading, had := t.stored, t.ReadingOf(t.Here().LinesOf(r)), t.observed;
    ghost var more := Observed(t.Here().LinesOf(r), t.parse, t.Skip());
    ToldOneMore(start, rounds, r, got, t.parse);
    LastTsConcat(if stored.Some? then stored.value.lastTs else "", had, more);
    t.Turn(r);
    if grows {
      RestartableStep(start, rounds, r, files, stored, before, reading, t.lastTs);
    }
    hide Restartable, Told, Observed, PlaceAfter, LastTs;
  }

  /** The window closes in a round that finds the file gone, or at its clean end without a complete line left. */
  lemma {:induction false} ClosesAtLiveEnd(p: Place, rounds: seq<Round>) returns (i: nat)
    requires p.open && !PlaceAfter(p, rounds).open
    ensures i < |rounds|
    ensures var q := PlaceAfter(p, rounds[..i]);
      q.open && (q.Gone(rounds[i]) || q.AtEnd(rounds[i])) && Caught(p, rounds) == Caught(p, rounds[..i])
  {
    var n := |rounds| - 1;
    assert rounds[..n + 1] == rounds;
    if PlaceAfter(p, rounds[..n]).open {
      i := n;
    } else {
      i := ClosesAtLiveEnd(p, rounds[..n]);
      assert rounds[..n][..i] == rounds[..i];
    }
  }
}
