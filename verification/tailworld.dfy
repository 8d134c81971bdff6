/**
 The tailer over whole runs: appends, single lines handled, the two halves of a checkpoint save, day
 rolls, rotations, deletions, crashes and restarts with and without a back-fill, in any order.
 */
module TailWorld {
  import opened LineStream
  import opened Wrappers

  datatype Position = Position(day: int, offset: nat)

  // One process: where it reads, whether it is between writing and renaming the checkpoint, and, as
  // history, where it entered this file and the lines it has handled since.
  datatype Process = Process(at: Position, saving: bool, start: nat, handled: seq<string>)

  // A complete line, by its day and its first byte.
  type Row = (int, nat)

  // `url` says whether a restart can ask the listener for what it has missed. The listener serves the
  // files and, of rotated days, their `parquet`. `gone` are the days whose file was rotated or deleted;
  // `done` is history: the lines ever handled.
  datatype World = World(
    url: bool,
    files: map<int, string>,
    parquet: map<int, string>,
    gone: set<int>,
    today: int,
    stored: Option<Position>,
    temp: Option<Position>,
    process: Option<Process>,
    done: set<Row>)
  {
    function File(day: int): string {
      if day in files then files[day] else ""
    }

    function Served(day: int): string {
      if day in files then files[day] else if day in parquet then parquet[day] else ""
    }
  }

  // `got` are the rows a back-fill was answered with before it ended or failed.
  datatype Step =
    | Append(day: int, bytes: string)
    | Rotate(day: int)
    | Delete(day: int)
    | NextDay
    | HandleLine
    | WriteTemp
    | RenameTemp
    | SaveFails
    | Roll
    | Crash
    | Restart(got: set<Row>)

  // A complete line of a text begins at `i`.
  predicate LineAt(s: string, i: nat) {
    i <= |s| && Cut(s, 0, i) && HasLine(s, i)
  }

  predicate IsLine(w: World, day: int, i: nat) {
    LineAt(w.File(day), i)
  }

  predicate IsServed(w: World, day: int, i: nat) {
    LineAt(w.Served(day), i)
  }

  // A restart asks for what it missed if the file of its checkpoint is no longer there,
  predicate Backfills(w: World) {
    w.url && w.stored.Some? && w.stored.value.day !in w.files
  }

  // namely for everything from the day before the checkpoint's on.
  predicate Asked(w: World, row: Row) {
    w.stored.Some? && w.stored.value.day - 1 <= row.0 <= w.today && IsServed(w, row.0, row.1)
  }

  function AllAsked(w: World): set<Row>
    requires w.stored.Some?
  {
    set day: int, i: nat |
      w.stored.value.day - 1 <= day <= w.today && 0 <= i <= |w.Served(day)| && IsServed(w, day, i) :: (day, i)
  }

  predicate AtLine(w: World) {
    && w.process.Some?
    && w.process.value.at.offset <= |w.File(w.process.value.at.day)|
    && HasLine(w.File(w.process.value.at.day), w.process.value.at.offset)
  }

  predicate Possible(w: World, step: Step) {
    match step
    case Append(day, _) => day !in w.gone
    case Rotate(day) => day in w.files && day < w.today
    case Delete(day) => day in w.files || day in w.parquet
    case NextDay => true
    case HandleLine => AtLine(w) && !w.process.value.saving
    case WriteTemp => w.process.Some? && !w.process.value.saving
    case RenameTemp => w.process.Some? && w.process.value.saving
    case SaveFails => w.process.Some? && w.process.value.saving
    // Past days only; a file that is still there must have been read to its end.
    case Roll => w.process.Some? && !w.process.value.saving && w.process.value.at.day != w.today && !AtLine(w)
    case Crash => w.process.Some?
    case Restart(got) =>
      w.process.None? && if Backfills(w) then forall row :: row in got ==> Asked(w, row) else got == {}
  }

  function Apply(w: World, step: Step): World
    requires Possible(w, step)
  {
    match step
    case Append(day, bytes) => w.(files := w.files[day := w.File(day) + bytes])
    case Rotate(day) =>
      w.(files := w.files - {day}, parquet := w.parquet[day := w.files[day]], gone := w.gone + {day})
    case Delete(day) => w.(files := w.files - {day}, parquet := w.parquet - {day}, gone := w.gone + {day})
    case NextDay => w.(today := w.today + 1)
    case HandleLine =>
      var p := w.process.value;
      var s := w.File(p.at.day);
      var e := NextEnd(s, p.at.offset);
      w.(process := Some(p.(at := p.at.(offset := e), handled := p.handled + [s[p.at.offset..e]])),
         done := w.done + {(p.at.day, p.at.offset)})
    case WriteTemp => w.(temp := Some(w.process.value.at), process := Some(w.process.value.(saving := true)))
    case RenameTemp => w.(stored := w.temp, temp := None, process := Some(w.process.value.(saving := false)))
    case SaveFails => w.(process := Some(w.process.value.(saving := false)))
    case Roll => w.(process := Some(Process(Position(w.today, 0), false, 0, [])))
    case Crash => w.(process := None)
    case Restart(got) =>
      var at := if w.stored.Some? && w.stored.value.day in w.files then w.stored.value else Position(w.today, 0);
      w.(process := Some(Process(at, false, at.offset, [])), done := w.done + got)
  }

  // The complete lines of a day before an offset have all been handled.
  ghost predicate Covered(w: World, at: Position) {
    forall i: nat :: i < at.offset && i <= |w.File(at.day)| && Cut(w.File(at.day), 0, i) ==> (at.day, i) in w.done
  }

  // A position is a line boundary of its file with nothing unhandled before it. Nothing is known of a
  // deleted file; a file not yet created has only its beginning.
  ghost predicate Sound(w: World, at: Position) {
    at.day !in w.gone ==> Cut(w.File(at.day), 0, at.offset) && Covered(w, at)
  }

  // What one process has handled in its file is exactly the complete lines from where it entered.
  ghost predicate Exact(w: World, p: Process) {
    p.at.day !in w.gone ==>
      Cut(w.File(p.at.day), p.start, p.at.offset) && Cut(w.File(p.at.day), 0, p.start)
      && p.handled == Lines(w.File(p.at.day), p.start, p.at.offset)
  }

  ghost predicate Safe(w: World) {
    && (forall day :: day in w.gone ==> day !in w.files)
    && (w.stored.Some? ==> w.stored.value.day <= w.today)
    && (w.process.Some? ==> w.process.value.at.day <= w.today)
    && (w.stored.Some? ==> Sound(w, w.stored.value))
    && (w.process.Some? ==> Sound(w, w.process.value.at) && Exact(w, w.process.value))
    && (w.process.Some? && w.process.value.saving ==> w.temp == Some(w.process.value.at))
  }

  lemma AppendKeeps(s: string, t: string, at: nat)
    requires Cut(s, 0, at)
    ensures Cut(s + t, 0, at)
    ensures forall i: nat :: i < at && i <= |s + t| && Cut(s + t, 0, i) ==> i <= |s| && Cut(s, 0, i)
  {
  }

  lemma SoundAfter(w: World, step: Step, at: Position)
    requires Possible(w, step) && Sound(w, at) && (step.Append? ==> step.day !in w.gone)
    ensures Sound(Apply(w, step), at)
  {
    if step.Append? && at.day == step.day && at.day !in w.gone {
      AppendKeeps(w.File(at.day), step.bytes, at.offset);
    }
  }

  lemma ExactAfterAppend(w: World, day: int, bytes: string, p: Process)
    requires day !in w.gone && Exact(w, p)
    ensures Exact(Apply(w, Append(day, bytes)), p)
  {
    if p.at.day == day {
      LinesStay(w.File(day), bytes, p.start, p.at.offset);
    }
  }

  lemma HandleLineSafe(w: World)
    requires Safe(w) && Possible(w, HandleLine)
    ensures var t := Apply(w, HandleLine); Sound(t, t.process.value.at) && Exact(t, t.process.value)
  {
    var p, t := w.process.value, Apply(w, HandleLine);
    var s, at := w.File(p.at.day), p.at.offset;
    if p.at.day !in w.gone {
      OneMoreLine(s, p.start, at);
      var e := NextEnd(s, at);
      forall i: nat | i < e && i <= |s| && Cut(s, 0, i)
        ensures (p.at.day, i) in t.done
      {
        if i > at {
          assert false;
        }
      }
    }
  }

  lemma StoredSafe(w: World, step: Step)
    requires Safe(w) && Possible(w, step)
    ensures var t := Apply(w, step); t.stored.Some? ==> Sound(t, t.stored.value) && t.stored.value.day <= t.today
  {
    if step.RenameTemp? {
      SoundAfter(w, step, w.process.value.at);
    } else if w.stored.Some? {
      SoundAfter(w, step, w.stored.value);
    }
  }

  lemma ProcessSafe(w: World, step: Step)
    requires Safe(w) && Possible(w, step)
    ensures var t := Apply(w, step); t.process.Some? ==>
      Sound(t, t.process.value.at) && Exact(t, t.process.value) && t.process.value.at.day <= t.today
  {
    if w.process.Some? {
      SoundAfter(w, step, w.process.value.at);
    }
    match step
    case Append(day, bytes) =>
      if w.process.Some? {
        ExactAfterAppend(w, day, bytes, w.process.value);
      }
    case HandleLine => HandleLineSafe(w);
    case Restart(_) =>
      if w.stored.Some? {
        SoundAfter(w, step, w.stored.value);
      }
    case _ =>
  }

  /** Every step keeps the process and the checkpoint on line boundaries with nothing skipped before them. */
  lemma SafeStep(w: World, step: Step)
    requires Safe(w) && Possible(w, step)
    ensures Safe(Apply(w, step))
  {
    StoredSafe(w, step);
    ProcessSafe(w, step);
    hide Sound;
    hide Exact;
  }

  ghost predicate IsRun(worlds: seq<World>, steps: seq<Step>) {
    && |worlds| == |steps| + 1
    && forall i :: 0 <= i < |steps| ==> Possible(worlds[i], steps[i]) && worlds[i + 1] == Apply(worlds[i], steps[i])
  }

  function Empty(today: int, url: bool): World {
    World(url, map[], map[], {}, today, None, None, None, {})
  }

  /** In every world of every run. */
  lemma {:induction false} AlwaysSafe(worlds: seq<World>, steps: seq<Step>, n: nat)
    requires IsRun(worlds, steps) && n < |worlds| && exists today, url :: worlds[0] == Empty(today, url)
    ensures Safe(worlds[n])
  {
    if n > 0 {
      AlwaysSafe(worlds, steps, n - 1);
      SafeStep(worlds[n - 1], steps[n - 1]);
    }
  }

  /** The checkpoint is never ahead of what was handled: a restart on it skips no complete line of its file. */
  lemma ResumeSkipsNothing(worlds: seq<World>, steps: seq<Step>, n: nat)
    requires IsRun(worlds, steps) && n < |worlds| && exists today, url :: worlds[0] == Empty(today, url)
    requires worlds[n].process.None? && worlds[n].stored.Some? && worlds[n].stored.value.day in worlds[n].files
    ensures var w, t := worlds[n], Apply(worlds[n], Restart({}));
      && t.process.value.at == w.stored.value && Cut(w.files[w.stored.value.day], 0, w.stored.value.offset)
      && Lines(w.files[w.stored.value.day], 0, |w.files[w.stored.value.day]|)
         == Lines(w.files[w.stored.value.day], 0, w.stored.value.offset)
            + Lines(w.files[w.stored.value.day], w.stored.value.offset, |w.files[w.stored.value.day]|)
      && forall i: nat :: i < w.stored.value.offset && Cut(w.files[w.stored.value.day], 0, i) ==>
           (w.stored.value.day, i) in w.done
  {
    AlwaysSafe(worlds, steps, n);
    var w := worlds[n];
    LinesSplit(w.files[w.stored.value.day], 0, w.stored.value.offset, |w.files[w.stored.value.day]|);
  }

  // ── Which lines can still be handled ──

  // From `w` the steps, one after the other, lead to `t`.
  ghost predicate Leads(w: World, steps: seq<Step>, t: World)
    decreases |steps|
  {
    if steps == [] then w == t else Possible(w, steps[0]) && Leads(Apply(w, steps[0]), steps[1..], t)
  }

  lemma {:induction false} LeadsOn(w: World, steps: seq<Step>, t: World, more: seq<Step>, u: World)
    requires Leads(w, steps, t) && Leads(t, more, u)
    ensures Leads(w, steps + more, u)
    decreases |steps|
  {
    hide Apply;
    hide Possible;
    if steps == [] {
      assert steps + more == more;
    } else {
      LeadsOn(Apply(w, steps[0]), steps[1..], t, more, u);
      assert (steps + more)[1..] == steps[1..] + more;
    }
  }

  lemma LeadsThen(w: World, steps: seq<Step>, t: World, step: Step) returns (more: seq<Step>, u: World)
    requires Leads(w, steps, t) && Possible(t, step)
    ensures more == steps + [step] && u == Apply(t, step) && Leads(w, more, u)
  {
    more, u := steps + [step], Apply(t, step);
    assert Leads(t, [step], u);
    LeadsOn(w, steps, t, [step], u);
  }

  lemma {:induction false} SafeAlong(w: World, steps: seq<Step>, t: World)
    requires Safe(w) && Leads(w, steps, t)
    ensures Safe(t)
    decreases |steps|
  {
    if steps != [] {
      SafeStep(w, steps[0]);
      SafeAlong(Apply(w, steps[0]), steps[1..], t);
    }
  }

  // The process reads the day, or a restart on the checkpoint would.
  predicate OnDay(w: World, day: int) {
    || (w.process.Some? && w.process.value.at.day == day)
    || (w.stored.Some? && w.stored.value.day == day)
  }

  // The day is yesterday, or the process or the checkpoint is on a day whose back-fill goes back to it.
  predicate InReach(w: World, day: int) {
    || day + 1 == w.today
    || (w.process.Some? && w.process.value.at.day <= day + 1)
    || (w.stored.Some? && w.stored.value.day <= day + 1)
  }

  lemma {:induction false} LaterLine(s: string, at: nat, i: nat)
    requires at <= i <= |s| && HasLine(s, i)
    ensures HasLine(s, at)
    decreases i - at
  {
    if at < i {
      LaterLine(s, at + 1, i);
    }
  }

  // A process on a day gets to any line it has not passed.
  lemma {:induction false} ReadUpTo(w: World, day: int, i: nat) returns (steps: seq<Step>, t: World)
    requires Safe(w) && w.process.Some? && !w.process.value.saving && w.process.value.at.day == day && day !in w.gone
    requires IsLine(w, day, i) && w.process.value.at.offset <= i
    ensures Leads(w, steps, t) && (day, i) in t.done
    decreases i - w.process.value.at.offset
  {
    var at := w.process.value.at.offset;
    LaterLine(w.File(day), at, i);
    var u := Apply(w, HandleLine);
    assert Leads(u, [], u) && Leads(w, [HandleLine], u);
    steps, t := [HandleLine], u;
    if at < i {
      SafeStep(w, HandleLine);
      var more;
      more, t := ReadUpTo(u, day, i);
      LeadsOn(w, [HandleLine], u, more, t);
      steps := [HandleLine] + more;
    }
  }

  // A process that was saving is brought to where it reads again; one that is not on the day is restarted.
  lemma BackOnDay(w: World, day: int) returns (steps: seq<Step>, t: World)
    requires Safe(w) && OnDay(w, day) && day in w.files
    ensures Leads(w, steps, t) && t.process.Some? && !t.process.value.saving && t.process.value.at.day == day
    ensures t.files == w.files && t.gone == w.gone && t.done == w.done
  {
    steps, t := [], w;
    if w.process.Some? && w.process.value.at.day == day {
      if w.process.value.saving {
        steps, t := LeadsThen(w, steps, t, SaveFails);
      }
    } else {
      if w.process.Some? {
        steps, t := LeadsThen(w, steps, t, Crash);
      }
      steps, t := LeadsThen(w, steps, t, Restart({}));
    }
  }

  // A process saves where it is and stops.
  lemma SaveAndStop(w: World, steps: seq<Step>, t: World) returns (more: seq<Step>, u: World)
    requires Leads(w, steps, t) && t.process.Some?
    ensures Leads(w, more, u)
    ensures u == t.(stored := Some(t.process.value.at), temp := None, process := None)
  {
    hide Leads;
    more, u := steps, t;
    if t.process.value.saving {
      more, u := LeadsThen(w, more, u, SaveFails);
    }
    more, u := LeadsThen(w, more, u, WriteTemp);
    more, u := LeadsThen(w, more, u, RenameTemp);
    more, u := LeadsThen(w, more, u, Crash);
  }

  // From anywhere in reach the exporter can come to be stopped with its checkpoint in reach.
  lemma StoppedInReach(w: World, day: int) returns (steps: seq<Step>, t: World)
    requires Safe(w) && InReach(w, day)
    ensures Leads(w, steps, t) && t.process.None?
    ensures t.stored.Some? && t.stored.value.day <= day + 1 && t.stored.value.day <= w.today
    ensures t == w.(stored := t.stored, temp := t.temp, process := None)
  {
    steps, t := [], w;
    if w.process.Some? && w.process.value.at.day <= day + 1 {
      steps, t := SaveAndStop(w, steps, t);
    } else if w.stored.Some? && w.stored.value.day <= day + 1 {
      if w.process.Some? {
        steps, t := LeadsThen(w, steps, t, Crash);
      }
    } else {
      steps, t := LeadsThen(w, steps, t, Restart({}));
      steps, t := SaveAndStop(w, steps, t);
    }
  }

  // Once the checkpoint's file has been rotated away, a restart asks for the line and gets it.
  lemma BackfillGets(w: World, steps: seq<Step>, t: World, day: int, i: nat) returns (more: seq<Step>, u: World)
    requires Leads(w, steps, t) && t.url && t.process.None? && IsServed(t, day, i) && day < t.today
    requires t.stored.Some? && t.stored.value.day <= day + 1 && t.stored.value.day <= t.today
    ensures Leads(w, more, u) && (day, i) in u.done
  {
    hide Leads;
    more, u := steps, t;
    var at := t.stored.value.day;
    if at in t.files {
      if at == t.today {
        more, u := LeadsThen(w, more, u, NextDay);
      }
      more, u := LeadsThen(w, more, u, Rotate(at));
    }
    assert u.Served(day) == t.Served(day);
    assert (day, i) in AllAsked(u);
    more, u := LeadsThen(w, more, u, Restart(AllAsked(u)));
  }

  // The process and the checkpoint have left the day behind, out of the reach of a back-fill if there is one.
  ghost predicate Behind(w: World, day: int) {
    && day < w.today && (if w.url then !InReach(w, day) else !OnDay(w, day))
    && (w.process.Some? && w.process.value.saving ==> w.temp == Some(w.process.value.at))
  }

  lemma BehindStep(w: World, step: Step, day: int)
    requires Possible(w, step) && Behind(w, day)
    ensures var t := Apply(w, step); Behind(t, day) && forall i: nat :: (day, i) in t.done ==> (day, i) in w.done
  {
    if step.Restart? && Backfills(w) {
      assert forall row :: row in step.got ==> Asked(w, row);
    }
  }

  /** A past day that is left behind is never read again, in any continuation. */
  lemma {:induction false} NeverReadAgain(w: World, steps: seq<Step>, t: World, day: int)
    requires Behind(w, day) && Leads(w, steps, t)
    ensures Behind(t, day) && forall i: nat :: (day, i) in t.done ==> (day, i) in w.done
    decreases |steps|
  {
    if steps != [] {
      BehindStep(w, steps[0], day);
      NeverReadAgain(Apply(w, steps[0]), steps[1..], t, day);
    }
  }

  ghost predicate CanBeHandled(w: World, day: int, i: nat) {
    exists steps, t :: Leads(w, steps, t) && (day, i) in t.done
  }

  lemma NeverHandled(w: World, day: int, i: nat)
    requires Behind(w, day) && (day, i) !in w.done
    ensures !CanBeHandled(w, day, i)
  {
    forall steps, t | Leads(w, steps, t)
      ensures (day, i) !in t.done
    {
      NeverReadAgain(w, steps, t, day);
    }
  }

  /**
   Exactly when, without a back-fill: an unhandled complete line of a past day's file is handled in some
   continuation if and only if its day is the process's or the checkpoint's.
   */
  lemma HandledLaterExactly(w: World, day: int, i: nat)
    requires Safe(w) && !w.url && day < w.today && IsLine(w, day, i) && (day, i) !in w.done
    ensures CanBeHandled(w, day, i) <==> OnDay(w, day)
  {
    assert day in w.files;
    if OnDay(w, day) {
      var steps, t := BackOnDay(w, day);
      SafeAlong(w, steps, t);
      assert Covered(t, t.process.value.at);
      var more, u := ReadUpTo(t, day, i);
      LeadsOn(w, steps, t, more, u);
    } else {
      NeverHandled(w, day, i);
    }
  }

  /**
   Exactly when, with a back-fill: an unhandled served line of a past day is handled in some continuation
   if and only if its day is yesterday, or the process or the checkpoint is at most one day past it.
   */
  lemma BackfilledLaterExactly(w: World, day: int, i: nat)
    requires Safe(w) && w.url && day < w.today && IsServed(w, day, i) && (day, i) !in w.done
    ensures CanBeHandled(w, day, i) <==> InReach(w, day)
  {
    if InReach(w, day) {
      var steps, t := StoppedInReach(w, day);
      var more, u := BackfillGets(w, steps, t, day, i);
    } else {
      NeverHandled(w, day, i);
    }
  }

  // ── Deleted days ──

  // The day was there and nothing of it is left.
  predicate Vanished(w: World, day: int) {
    day in w.gone && day !in w.files && day !in w.parquet
  }

  lemma VanishedStep(w: World, step: Step, day: int)
    requires Possible(w, step) && Vanished(w, day)
    ensures Vanished(Apply(w, step), day)
    ensures forall i: nat :: (day, i) in Apply(w, step).done ==> (day, i) in w.done
  {
    if step.Restart? && Backfills(w) {
      assert w.Served(day) == "";
      assert forall row :: row in step.got ==> Asked(w, row);
    }
  }

  lemma {:induction false} VanishedForGood(w: World, steps: seq<Step>, t: World, day: int)
    requires Vanished(w, day) && Leads(w, steps, t)
    ensures forall i: nat :: (day, i) in t.done ==> (day, i) in w.done
    decreases |steps|
  {
    if steps != [] {
      VanishedStep(w, steps[0], day);
      VanishedForGood(Apply(w, steps[0]), steps[1..], t, day);
    }
  }

  /** What retention deletes before it was handled is lost, with or without a back-fill. */
  lemma DeletedIsLost(w: World, day: int, i: nat)
    requires Possible(w, Delete(day)) && (day, i) !in w.done
    ensures !CanBeHandled(Apply(w, Delete(day)), day, i)
  {
    forall steps, t | Leads(Apply(w, Delete(day)), steps, t)
      ensures (day, i) !in t.done
    {
      VanishedForGood(Apply(w, Delete(day)), steps, t, day);
    }
  }

  // ── Day rolls ──

  /**
   A roll leaves no complete line of the file it leaves. From then on, without a back-fill, of all past
   days only the lines of the checkpoint's day can still be handled; with one, also yesterday's, and those
   of every day from the one before the checkpoint's on.
   */
  lemma RollLosesExactly(w: World, day: int, i: nat)
    requires Safe(w) && Possible(w, Roll) && day < w.today && (day, i) !in w.done
    ensures IsLine(w, day, i) ==> day != w.process.value.at.day
    ensures !w.url && IsLine(w, day, i) ==>
      (CanBeHandled(Apply(w, Roll), day, i) <==> w.stored.Some? && w.stored.value.day == day)
    ensures w.url && IsServed(w, day, i) ==>
      (CanBeHandled(Apply(w, Roll), day, i)
       <==> day + 1 == w.today || (w.stored.Some? && w.stored.value.day <= day + 1))
  {
    var at := w.process.value.at;
    if IsLine(w, day, i) && day == at.day {
      assert Covered(w, at);
      LaterLine(w.File(day), at.offset, i);
      assert false;
    }
    SafeStep(w, Roll);
    if w.url && IsServed(w, day, i) {
      BackfilledLaterExactly(Apply(w, Roll), day, i);
    } else if !w.url && IsLine(w, day, i) {
      HandledLaterExactly(Apply(w, Roll), day, i);
    }
  }

  // An exporter that handled the line of day 0,
  lemma HandledDay0(url: bool, line: string) returns (steps: seq<Step>, t: World)
    requires NextEnd(line, 0) == |line|
    ensures Leads(Empty(0, url), steps, t)
    ensures t == World(url, map[0 := line], map[], {}, 0, None, None,
                       Some(Process(Position(0, |line|), false, 0, [line])), {(0, 0)})
  {
    steps, t := [], Empty(0, url);
    steps, t := LeadsThen(Empty(0, url), steps, t, Append(0, line));
    assert "" + line == line;
    steps, t := LeadsThen(Empty(0, url), steps, t, Restart({}));
    steps, t := LeadsThen(Empty(0, url), steps, t, HandleLine);
    assert line[0..|line|] == line && [] + [line] == [line];
  }

  // saved its checkpoint and stopped, while day 1 got a line.
  lemma DayOnePassed(url: bool, line: string, other: string) returns (steps: seq<Step>, t: World)
    requires NextEnd(line, 0) == |line| && NextEnd(other, 0) == |other|
    ensures Leads(Empty(0, url), steps, t)
    ensures t == World(url, map[0 := line, 1 := other], map[], {}, 2, Some(Position(0, |line|)), None, None, {(0, 0)})
  {
    hide Leads;
    steps, t := HandledDay0(url, line);
    steps, t := SaveAndStop(Empty(0, url), steps, t);
    steps, t := LeadsThen(Empty(0, url), steps, t, NextDay);
    steps, t := LeadsThen(Empty(0, url), steps, t, Append(1, other));
    assert "" + other == other;
    steps, t := LeadsThen(Empty(0, url), steps, t, NextDay);
  }

  /** Back on day 2 without a back-fill, it rolls straight to day 2: the line of day 1 is never handled. */
  lemma DayBetweenIsLost(line: string, other: string) returns (steps: seq<Step>, t: World)
    requires NextEnd(line, 0) == |line| && NextEnd(other, 0) == |other|
    ensures Leads(Empty(0, false), steps, t) && IsLine(t, 1, 0) && (1, 0) !in t.done
    ensures !CanBeHandled(t, 1, 0)
  {
    steps, t := DayOnePassed(false, line, other);
    steps, t := LeadsThen(Empty(0, false), steps, t, Restart({}));
    assert Possible(t, Roll);
    steps, t := LeadsThen(Empty(0, false), steps, t, Roll);
    NeverHandled(t, 1, 0);
  }

  /** Back on day 3, it is lost in spite of a back-fill once the checkpoint has been saved after the roll. */
  lemma BackfillTooLate(line: string, other: string) returns (steps: seq<Step>, t: World)
    requires NextEnd(line, 0) == |line| && NextEnd(other, 0) == |other|
    ensures Leads(Empty(0, true), steps, t) && IsServed(t, 1, 0) && (1, 0) !in t.done
    ensures !CanBeHandled(t, 1, 0)
  {
    steps, t := DayOnePassed(true, line, other);
    steps, t := LeadsThen(Empty(0, true), steps, t, NextDay);
    steps, t := LeadsThen(Empty(0, true), steps, t, Restart({}));
    assert Possible(t, Roll);
    steps, t := LeadsThen(Empty(0, true), steps, t, Roll);
    steps, t := SaveAndStop(Empty(0, true), steps, t);
    NeverHandled(t, 1, 0);
  }
}
