/**
 Archiving of past days: every file operation of `housekeep` is one step, prune and the writer run
 alongside, and the process may crash between any two steps.
 */
module Archive {
  import opened Wrappers

  type Files = map<string, string>

  // Where one housekeeping pass is, and the entry it works on.
  datatype Phase =
    | Idle
    | Choosing
    | Creating(day: int)
    | Packing(day: int, tmp: nat)
    | Verified(day: int, tmp: nat)
    | Removing(day: int)

  // `listed` and `stale` are what its one directory listing showed and it has not handled yet.
  datatype Pass = Pass(listed: set<int>, stale: set<nat>, phase: Phase)
  {
    predicate Busy() {
      !phase.Idle?
    }
  }

  const NO_PASS := Pass({}, {}, Idle)

  // `full` and `pruned` are history that no step reads: what each day's directory was last written to
  // hold, and the days whose archive retention has deleted.
  datatype State = State(
    today: int,
    dirs: map<int, Files>,
    archives: map<int, Files>,
    temps: map<nat, Files>,
    passes: seq<Pass>,
    full: map<int, Files>,
    pruned: set<int>)
  {
    function Dir(day: int): Files {
      if day in dirs then dirs[day] else map[]
    }

    function Written(day: int): Files {
      if day in full then full[day] else map[]
    }
  }

  // `p` is the pass that takes the step. `Begin` carries the date it computed before the listing.
  datatype Step =
    | Begin(p: nat, clock: int)
    | Stat(p: nat, day: int)
    | CreateTemp(p: nat, tmp: nat)
    | CopyOne(p: nat, name: string)
    | Verify(p: nat)
    | Rename(p: nat)
    | Fail(p: nat)
    | RemoveOne(p: nat, name: string)
    | RemoveDir(p: nat)
    | CleanTemp(p: nat, tmp: nat)
    | End(p: nat)
    | Crash
    | Prune(day: int)
    | Write(name: string, data: string)
    | NextDay

  predicate Owned(step: Step) {
    !(step.Crash? || step.Prune? || step.Write? || step.NextDay?)
  }

  predicate Possible(s: State, step: Step) {
    if Owned(step) then
      step.p < |s.passes| &&
      var pass := s.passes[step.p];
      match step
      case Begin(_, _) => pass.phase.Idle?
      case Stat(_, day) => pass.phase.Choosing? && day in pass.listed
      case CreateTemp(_, tmp) => pass.phase.Creating? && tmp !in s.temps
      case CopyOne(_, name) => pass.phase.Packing? && pass.phase.tmp in s.temps && name in s.Dir(pass.phase.day)
      // Every name now in the source directory is a member of the archive.
      case Verify(_) =>
        && pass.phase.Packing? && pass.phase.tmp in s.temps && pass.phase.day in s.dirs
        && s.dirs[pass.phase.day].Keys <= s.temps[pass.phase.tmp].Keys
      case Rename(_) => pass.phase.Verified? && pass.phase.tmp in s.temps
      case Fail(_) => pass.phase.Creating? || pass.phase.Packing? || pass.phase.Verified? || pass.phase.Removing?
      case RemoveOne(_, name) => pass.phase.Removing? && name in s.Dir(pass.phase.day)
      case RemoveDir(_) => pass.phase.Removing? && s.Dir(pass.phase.day) == map[]
      case CleanTemp(_, tmp) => pass.phase.Choosing? && tmp in pass.stale
      case End(_) => pass.phase.Choosing?
    else
      match step
      case Prune(day) => day in s.archives
      case _ => true
  }

  // What the theorem asks of the environment: the mutex lets one pass run at a time, and the listing of
  // a pass does not show a directory of today. It does show one when a midnight falls between the
  // clock and the listing and something has been written since.
  predicate Alone(s: State, step: Step) {
    step.Begin? ==> forall i :: 0 <= i < |s.passes| ==> !s.passes[i].Busy()
  }

  predicate ListsPast(s: State, step: Step) {
    step.Begin? ==> s.today !in s.dirs.Keys - {step.clock}
  }

  function Moved(s: State, p: nat, phase: Phase): State
    requires p < |s.passes|
  {
    s.(passes := s.passes[p := s.passes[p].(phase := phase)])
  }

  // The entry is done with, for better or worse.
  function Next(s: State, p: nat, day: int): State
    requires p < |s.passes|
  {
    s.(passes := s.passes[p := Pass(s.passes[p].listed - {day}, s.passes[p].stale, Choosing)])
  }

  function Apply(s: State, step: Step): State
    requires Possible(s, step)
  {
    match step
    case Begin(p, clock) => s.(passes := s.passes[p := Pass(s.dirs.Keys - {clock}, s.temps.Keys, Choosing)])
    case Stat(p, day) => Moved(s, p, if day in s.archives then Removing(day) else Creating(day))
    case CreateTemp(p, tmp) => Moved(s, p, Packing(s.passes[p].phase.day, tmp)).(temps := s.temps[tmp := map[]])
    case CopyOne(p, name) =>
      var ph := s.passes[p].phase;
      s.(temps := s.temps[ph.tmp := s.temps[ph.tmp][name := s.Dir(ph.day)[name]]])
    case Verify(p) => Moved(s, p, Verified(s.passes[p].phase.day, s.passes[p].phase.tmp))
    case Rename(p) =>
      var ph := s.passes[p].phase;
      Moved(s, p, Removing(ph.day)).(archives := s.archives[ph.day := s.temps[ph.tmp]], temps := s.temps - {ph.tmp})
    case Fail(p) =>
      var ph := s.passes[p].phase;
      Next(s, p, ph.day).(temps := if ph.Packing? || ph.Verified? then s.temps - {ph.tmp} else s.temps)
    case RemoveOne(p, name) =>
      var day := s.passes[p].phase.day;
      s.(dirs := s.dirs[day := s.Dir(day) - {name}])
    case RemoveDir(p) => Next(s, p, s.passes[p].phase.day).(dirs := s.dirs - {s.passes[p].phase.day})
    case CleanTemp(p, tmp) =>
      s.(temps := s.temps - {tmp}, passes := s.passes[p := s.passes[p].(stale := s.passes[p].stale - {tmp})])
    case End(p) => s.(passes := s.passes[p := NO_PASS])
    case Crash => s.(passes := seq(|s.passes|, _ => NO_PASS))
    case Prune(day) => s.(archives := s.archives - {day}, pruned := s.pruned + {day})
    case Write(name, data) =>
      s.(dirs := s.dirs[s.today := s.Dir(s.today)[name := data]],
         full := s.full[s.today := s.Written(s.today)[name := data]])
    case NextDay => s.(today := s.today + 1)
  }

  ghost predicate IsRun(states: seq<State>, steps: seq<Step>, serial: bool, past: bool) {
    && |states| == |steps| + 1
    && forall i :: 0 <= i < |steps| ==>
         && Possible(states[i], steps[i]) && states[i + 1] == Apply(states[i], steps[i])
         && (serial ==> Alone(states[i], steps[i])) && (past ==> ListsPast(states[i], steps[i]))
  }

  function Empty(today: int, passes: nat): State {
    State(today, map[], map[], map[], seq(passes, _ => NO_PASS), map[], {})
  }

  // ── Safety ──

  /** A past day that retention has not deleted is still whole somewhere. */
  ghost predicate Kept(s: State, day: int)
    requires day in s.full
  {
    || (day in s.dirs && s.dirs[day] == s.full[day])
    || (day in s.archives && s.archives[day] == s.full[day])
  }

  ghost predicate NothingLost(s: State) {
    forall day :: day in s.full && day < s.today && day !in s.pruned ==> Kept(s, day)
  }

  // ── The invariant ──

  // A day has an archive only once it is over, and then a complete one; until it has one its directory
  // is complete.
  ghost predicate DaySafe(s: State, day: int) {
    && (day in s.pruned || day in s.archives ==> day < s.today)
    && (day in s.archives && day !in s.pruned ==> day in s.full && s.archives[day] == s.full[day])
    && (day in s.full && day !in s.archives && day !in s.pruned ==> day in s.dirs && s.dirs[day] == s.full[day])
    && (day in s.dirs && day !in s.pruned ==> day in s.full && day <= s.today)
  }

  ghost predicate PhaseSafe(s: State, pass: Pass) {
    (pass.Busy() ==> pass.stale <= s.temps.Keys) &&
    match pass.phase
    case Idle => true
    case Choosing => true
    case Creating(day) => day < s.today && day !in s.archives
    case Packing(day, tmp) =>
      && day < s.today && tmp in s.temps && tmp !in pass.stale && day !in s.archives
      && (day !in s.pruned ==> s.temps[tmp].Items <= s.Written(day).Items)
    case Verified(day, tmp) =>
      && day < s.today && tmp in s.temps && tmp !in pass.stale && day !in s.archives
      && (day !in s.pruned ==> day in s.full && s.temps[tmp] == s.full[day])
    case Removing(day) => day < s.today && (day in s.archives || day in s.pruned)
  }

  ghost predicate Safe(s: State) {
    && (forall day :: DaySafe(s, day))
    && (forall i :: 0 <= i < |s.passes| ==>
          PhaseSafe(s, s.passes[i]) && forall day :: day in s.passes[i].listed ==> day < s.today)
    && (forall i, j :: 0 <= i < j < |s.passes| ==> !s.passes[i].Busy() || !s.passes[j].Busy())
  }

  lemma DayStep(s: State, step: Step, day: int)
    requires Safe(s) && Possible(s, step) && Alone(s, step) && ListsPast(s, step)
    ensures DaySafe(Apply(s, step), day)
  {
    assert DaySafe(s, day);
    if Owned(step) {
      assert PhaseSafe(s, s.passes[step.p]);
    }
  }

  lemma PassStep(s: State, step: Step, i: nat)
    requires Safe(s) && Possible(s, step) && Alone(s, step) && ListsPast(s, step) && i < |s.passes|
    ensures var t := Apply(s, step);
      PhaseSafe(t, t.passes[i]) && forall day :: day in t.passes[i].listed ==> day < t.today
  {
    assert PhaseSafe(s, s.passes[i]);
    if Owned(step) && step.p == i {
      OwnStep(s, step);
    } else if Owned(step) {
      assert PhaseSafe(s, s.passes[step.p]);
      assert step.Begin? || s.passes[step.p].Busy();
    }
  }

  lemma OwnStep(s: State, step: Step)
    requires Safe(s) && Possible(s, step) && Alone(s, step) && ListsPast(s, step) && Owned(step)
    ensures var t := Apply(s, step);
      PhaseSafe(t, t.passes[step.p]) && forall day :: day in t.passes[step.p].listed ==> day < t.today
  {
    var t, pass := Apply(s, step), s.passes[step.p];
    assert PhaseSafe(s, pass);
    if pass.phase.Creating? || pass.phase.Packing? || pass.phase.Verified? || pass.phase.Removing? {
      assert DaySafe(s, pass.phase.day);
    }
    if step.Begin? {
      forall day | day in t.passes[step.p].listed
        ensures day < t.today
      {
        assert DaySafe(s, day);
      }
    } else if step.Verify? && pass.phase.day !in s.pruned {
      SameNames(s.temps[pass.phase.tmp], s.full[pass.phase.day]);
    }
  }

  // A part of a map that has all its names is the map.
  lemma SameNames(part: Files, whole: Files)
    requires part.Items <= whole.Items && whole.Keys <= part.Keys
    ensures part == whole
  {
    forall name | name in part
      ensures name in whole && part[name] == whole[name]
    {
      assert (name, part[name]) in part.Items;
    }
  }

  /** Every step of an orderly run, crashes included, keeps every past day whole somewhere. */
  lemma SafeStep(s: State, step: Step)
    requires Safe(s) && Possible(s, step) && Alone(s, step) && ListsPast(s, step)
    ensures Safe(Apply(s, step))
  {
    forall day {
      DayStep(s, step, day);
    }
    forall i | 0 <= i < |s.passes| {
      PassStep(s, step, i);
    }
  }

  lemma {:induction false} ArchivingIsSafe(states: seq<State>, steps: seq<Step>, n: nat)
    requires IsRun(states, steps, true, true) && n < |states| && exists today, passes :: states[0] == Empty(today, passes)
    ensures Safe(states[n]) && NothingLost(states[n])
  {
    if n > 0 {
      ArchivingIsSafe(states, steps, n - 1);
      SafeStep(states[n - 1], steps[n - 1]);
    }
    SafeIsNothingLost(states[n]);
  }

  lemma SafeIsNothingLost(s: State)
    requires Safe(s)
    ensures NothingLost(s)
  {
    forall day | day in s.full && day < s.today && day !in s.pruned
      ensures Kept(s, day)
    {
      assert DaySafe(s, day);
    }
  }

  /** An archive is final: no step of an orderly run changes it, and only retention deletes it. */
  lemma ArchivesAreFinal(s: State, step: Step, day: int)
    requires Safe(s) && Possible(s, step) && day in s.archives
    ensures var t := Apply(s, step);
      && (step != Prune(day) ==> day in t.archives && t.archives[day] == s.archives[day])
      && (step == Prune(day) ==> day !in t.archives && t.dirs == s.dirs)
  {
    if Owned(step) {
      assert PhaseSafe(s, s.passes[step.p]);
    }
  }

  /** A pass that ends, or a crash, leaves the way free for the next one. */
  lemma NextPassMayBegin(s: State, step: Step, q: nat, clock: int)
    requires Safe(s) && Possible(s, step) && (step.End? || step.Crash?) && q < |s.passes|
    ensures var t := Apply(s, step); Possible(t, Begin(q, clock)) && Alone(t, Begin(q, clock))
  {
    if step.End? {
      assert s.passes[step.p].Busy();
    }
  }

  // ── An undisturbed pass does archive ──

  // From `s` the steps, one after the other, lead to `t`.
  ghost predicate Leads(s: State, steps: seq<Step>, t: State)
    decreases |steps|
  {
    if steps == [] then s == t else Possible(s, steps[0]) && Leads(Apply(s, steps[0]), steps[1..], t)
  }

  lemma {:induction false} LeadsOn(s: State, steps: seq<Step>, t: State, more: seq<Step>, u: State)
    requires Leads(s, steps, t) && Leads(t, more, u)
    ensures Leads(s, steps + more, u)
    decreases |steps|
  {
    if steps == [] {
      assert steps + more == more;
    } else {
      LeadsOn(Apply(s, steps[0]), steps[1..], t, more, u);
      assert (steps + more)[1..] == steps[1..] + more;
    }
  }

  lemma LeadsOne(s: State, step: Step)
    requires Possible(s, step)
    ensures Leads(s, [step], Apply(s, step))
  {
  }

  lemma {:induction false} CopyAll(s: State, p: nat, names: set<string>) returns (steps: seq<Step>, t: State)
    requires p < |s.passes| && s.passes[p].phase.Packing? && s.passes[p].phase.tmp in s.temps
    requires names <= s.Dir(s.passes[p].phase.day).Keys
    ensures Leads(s, steps, t) && NoBegin(steps) && t == s.(temps := t.temps)
    ensures t.temps.Keys == s.temps.Keys && var tmp := s.passes[p].phase.tmp;
      && t.temps[tmp].Keys == s.temps[tmp].Keys + names
      && (forall n :: n in names ==> t.temps[tmp][n] == s.Dir(s.passes[p].phase.day)[n])
      && (forall n :: n in s.temps[tmp] && n !in names ==> t.temps[tmp][n] == s.temps[tmp][n])
      && (forall i :: i in s.temps && i != tmp ==> t.temps[i] == s.temps[i])
    decreases names
  {
    if names == {} {
      steps, t := [], s;
    } else {
      var n :| n in names;
      LeadsOne(s, CopyOne(p, n));
      var more;
      more, t := CopyAll(Apply(s, CopyOne(p, n)), p, names - {n});
      steps := [CopyOne(p, n)] + more;
      LeadsOn(s, [CopyOne(p, n)], Apply(s, CopyOne(p, n)), more, t);
    }
  }

  lemma {:induction false} RemoveAll(s: State, p: nat, day: int, names: set<string>) returns (steps: seq<Step>, t: State)
    requires p < |s.passes| && s.passes[p].phase == Removing(day) && day in s.dirs && s.dirs[day].Keys == names
    ensures Leads(s, steps, t) && t == s.(dirs := s.dirs[day := map[]])
    decreases names
  {
    if names == {} {
      steps, t := [], s;
      assert s.dirs[day] == map[] && s.dirs[day := map[]] == s.dirs;
    } else {
      var n :| n in names;
      var u := Apply(s, RemoveOne(p, n));
      LeadsOne(s, RemoveOne(p, n));
      var more;
      more, t := RemoveAll(u, p, day, names - {n});
      assert u.dirs[day := map[]] == s.dirs[day := map[]];
      steps := [RemoveOne(p, n)] + more;
      LeadsOn(s, [RemoveOne(p, n)], u, more, t);
    }
  }

  // Stat, temporary file and copies.
  lemma PackDay(s: State, p: nat, day: int, tmp: nat) returns (steps: seq<Step>, t: State)
    requires p < |s.passes| && s.passes[p].phase.Choosing? && day in s.passes[p].listed
    requires day in s.dirs && day !in s.archives && tmp !in s.temps
    ensures Leads(s, steps, t) && NoBegin(steps)
    ensures t == Moved(s, p, Packing(day, tmp)).(temps := s.temps[tmp := s.dirs[day]])
  {
    hide Leads;
    var a := Apply(s, Stat(p, day));
    LeadsOne(s, Stat(p, day));
    var b := Apply(a, CreateTemp(p, tmp));
    LeadsOne(a, CreateTemp(p, tmp));
    LeadsOn(s, [Stat(p, day)], a, [CreateTemp(p, tmp)], b);
    var copies;
    copies, t := CopyAll(b, p, s.dirs[day].Keys);
    LeadsOn(s, [Stat(p, day)] + [CreateTemp(p, tmp)], b, copies, t);
    steps := [Stat(p, day)] + [CreateTemp(p, tmp)] + copies;
    CopiedWhole(s, b, t, p, day, tmp);
  }

  lemma CopiedWhole(s: State, b: State, t: State, p: nat, day: int, tmp: nat)
    requires p < |s.passes| && day in s.dirs && tmp !in s.temps
    requires b == Moved(s, p, Packing(day, tmp)).(temps := s.temps[tmp := map[]])
    requires t == b.(temps := t.temps) && t.temps.Keys == b.temps.Keys
    requires t.temps[tmp].Keys == s.dirs[day].Keys && forall n :: n in s.dirs[day] ==> t.temps[tmp][n] == s.dirs[day][n]
    requires forall i :: i in b.temps && i != tmp ==> t.temps[i] == b.temps[i]
    ensures t == Moved(s, p, Packing(day, tmp)).(temps := s.temps[tmp := s.dirs[day]])
  {
    assert t.temps[tmp] == s.dirs[day];
    assert t.temps == s.temps[tmp := s.dirs[day]];
  }

  // The check and the rename.
  lemma PublishDay(s: State, p: nat, day: int, tmp: nat, files: Files) returns (t: State)
    requires p < |s.passes| && s.passes[p].phase == Packing(day, tmp) && tmp in s.temps
    requires day in s.dirs && s.temps[tmp] == files && s.dirs[day] == files
    ensures Leads(s, [Verify(p)] + [Rename(p)], t)
    ensures t == Moved(s, p, Removing(day)).(archives := s.archives[day := files], temps := s.temps - {tmp})
  {
    var a := Apply(s, Verify(p));
    LeadsOne(s, Verify(p));
    t := Apply(a, Rename(p));
    LeadsOne(a, Rename(p));
    LeadsOn(s, [Verify(p)], a, [Rename(p)], t);
  }

  lemma RemoveDay(s: State, p: nat, day: int) returns (steps: seq<Step>, t: State)
    requires p < |s.passes| && s.passes[p].phase == Removing(day) && day in s.dirs
    ensures Leads(s, steps, t) && t == Next(s, p, day).(dirs := s.dirs - {day})
  {
    var a;
    steps, a := RemoveAll(s, p, day, s.dirs[day].Keys);
    t := Apply(a, RemoveDir(p));
    LeadsOne(a, RemoveDir(p));
    LeadsOn(s, steps, a, [RemoveDir(p)], t);
    steps := steps + [RemoveDir(p)];
    assert t.dirs == s.dirs - {day};
  }

  /** Left alone, a pass turns the directory it chose into an archive of exactly its files. */
  lemma PassArchivesDay(s: State, p: nat, day: int, tmp: nat) returns (steps: seq<Step>, t: State)
    requires p < |s.passes| && s.passes[p].phase.Choosing? && day in s.passes[p].listed
    requires day in s.dirs && day !in s.archives && tmp !in s.temps
    ensures Leads(s, steps, t)
    ensures t == Next(s, p, day).(archives := s.archives[day := s.dirs[day]], dirs := s.dirs - {day})
    // And is done with that entry.
    ensures p < |t.passes| && t.passes[p] == Pass(s.passes[p].listed - {day}, s.passes[p].stale, Choosing)
  {
    var packing, a := PackDay(s, p, day, tmp);
    var b := PublishDay(a, p, day, tmp, s.dirs[day]);
    LeadsOn(s, packing, a, [Verify(p)] + [Rename(p)], b);
    var removals;
    removals, t := RemoveDay(b, p, day);
    LeadsOn(s, packing + ([Verify(p)] + [Rename(p)]), b, removals, t);
    steps := packing + ([Verify(p)] + [Rename(p)]) + removals;
    assert t.temps == s.temps;
  }

  // ── No temporary file is left for good ──

  // A pass packs into the temporary file, or has checked it and is about to rename it.
  ghost predicate InUse(s: State, tmp: nat) {
    exists p :: 0 <= p < |s.passes| && (s.passes[p].phase.Packing? || s.passes[p].phase.Verified?)
      && s.passes[p].phase.tmp == tmp
  }

  lemma InUseStep(s: State, step: Step, tmp: nat)
    requires Possible(s, step) && !step.Crash? && (tmp in s.temps ==> InUse(s, tmp))
    ensures tmp in Apply(s, step).temps ==> InUse(Apply(s, step), tmp)
  {
    var t := Apply(s, step);
    if tmp in t.temps {
      if tmp in s.temps {
        var p :| 0 <= p < |s.passes| && (s.passes[p].phase.Packing? || s.passes[p].phase.Verified?)
          && s.passes[p].phase.tmp == tmp;
        assert t.passes[p].phase.tmp == tmp;
      } else {
        assert step == CreateTemp(step.p, tmp) && t.passes[step.p].phase.tmp == tmp;
      }
    }
  }

  /** Without a crash every temporary file is in use: a pass that fails, or is done, removes its own. */
  lemma {:induction false} NoTempIsLeft(states: seq<State>, steps: seq<Step>, n: nat)
    requires IsRun(states, steps, false, false) && n < |states| && exists today, passes :: states[0] == Empty(today, passes)
    requires forall i :: 0 <= i < |steps| ==> !steps[i].Crash?
    ensures forall tmp :: tmp in states[n].temps ==> InUse(states[n], tmp)
  {
    if n > 0 {
      NoTempIsLeft(states, steps, n - 1);
      forall tmp | tmp in states[n].temps
        ensures InUse(states[n], tmp)
      {
        InUseStep(states[n - 1], steps[n - 1], tmp);
      }
    }
  }

  lemma {:induction false} CleanAll(s: State, p: nat) returns (steps: seq<Step>, t: State)
    requires p < |s.passes| && s.passes[p].phase.Choosing?
    ensures Leads(s, steps, t)
    ensures t == s.(temps := s.temps - s.passes[p].stale, passes := s.passes[p := s.passes[p].(stale := {})])
    decreases s.passes[p].stale
  {
    var stale := s.passes[p].stale;
    if stale == {} {
      steps, t := [], s;
      assert s.passes[p].(stale := {}) == s.passes[p] && s.temps - {} == s.temps;
    } else {
      var tmp :| tmp in stale;
      var u := Apply(s, CleanTemp(p, tmp));
      LeadsOne(s, CleanTemp(p, tmp));
      var more;
      more, t := CleanAll(u, p);
      assert u.temps - u.passes[p].stale == s.temps - stale;
      steps := [CleanTemp(p, tmp)] + more;
      LeadsOn(s, [CleanTemp(p, tmp)], u, more, t);
    }
  }

  /** What a crash leaves, the next pass lists and removes, and touches nothing else by that. */
  lemma NextPassCleansUp(s: State, p: nat, clock: int) returns (steps: seq<Step>, t: State)
    requires Possible(s, Begin(p, clock))
    ensures Leads(s, steps, t) && t.temps == map[] && t.dirs == s.dirs && t.archives == s.archives
    ensures p < |t.passes| && t.passes[p].phase.Choosing? && t.passes[p].listed == s.dirs.Keys - {clock}
  {
    var begun := Apply(s, Begin(p, clock));
    LeadsOne(s, Begin(p, clock));
    var cleaning;
    cleaning, t := CleanAll(begun, p);
    LeadsOn(s, [Begin(p, clock)], begun, cleaning, t);
    steps := [Begin(p, clock)] + cleaning;
  }

  // ── Why the environment must be orderly ──

  lemma Extend(states: seq<State>, steps: seq<Step>, serial: bool, past: bool, step: Step)
    returns (longer: seq<State>, more: seq<Step>)
    requires IsRun(states, steps, serial, past) && Possible(states[|steps|], step)
    requires (serial ==> Alone(states[|steps|], step)) && (past ==> ListsPast(states[|steps|], step))
    ensures IsRun(longer, more, serial, past) && |more| == |steps| + 1 && longer[0] == states[0]
    ensures longer[|more|] == Apply(states[|steps|], step)
  {
    longer, more := states + [Apply(states[|steps|], step)], steps + [step];
    forall i | 0 <= i < |more|
      ensures Possible(longer[i], more[i]) && longer[i + 1] == Apply(longer[i], more[i])
      ensures (serial ==> Alone(longer[i], more[i])) && (past ==> ListsPast(longer[i], more[i]))
    {
      if i < |steps| {
        assert longer[i] == states[i] && longer[i + 1] == states[i + 1] && more[i] == steps[i];
      }
    }
  }

  // Two passes find day 0 unarchived before either has published an archive.
  lemma BothPassesBegin(name: string, data: string) returns (states: seq<State>, steps: seq<Step>)
    ensures IsRun(states, steps, false, true) && states[0] == Empty(0, 2)
    ensures states[|steps|] == State(
      1, map[0 := map[name := data]], map[], map[],
      [Pass({0}, {}, Choosing), Pass({0}, {}, Choosing)], map[0 := map[name := data]], {})
  {
    states, steps := [Empty(0, 2)], [];
    states, steps := Extend(states, steps, false, true, Write(name, data));
    states, steps := Extend(states, steps, false, true, NextDay);
    var day := map[name := data];
    assert states[|steps|] == State(1, map[0 := day], map[], map[], [NO_PASS, NO_PASS], map[0 := day], {});
    assert states[|steps|].dirs.Keys - {1} == {0} && states[|steps|].temps.Keys == {};
    states, steps := Extend(states, steps, false, true, Begin(0, 1));
    states, steps := Extend(states, steps, false, true, Begin(1, 1));
  }

  lemma BothPassesStart(name: string, data: string) returns (states: seq<State>, steps: seq<Step>)
    ensures IsRun(states, steps, false, true) && states[0] == Empty(0, 2)
    ensures states[|steps|] == State(
      1, map[0 := map[name := data]], map[], map[0 := map[], 1 := map[]],
      [Pass({0}, {}, Packing(0, 0)), Pass({0}, {}, Packing(0, 1))], map[0 := map[name := data]], {})
  {
    hide IsRun;
    states, steps := BothPassesBegin(name, data);
    states, steps := Extend(states, steps, false, true, Stat(0, 0));
    states, steps := Extend(states, steps, false, true, Stat(1, 0));
    assert states[|steps|].passes == [Pass({0}, {}, Creating(0)), Pass({0}, {}, Creating(0))];
    states, steps := Extend(states, steps, false, true, CreateTemp(0, 0));
    states, steps := Extend(states, steps, false, true, CreateTemp(1, 1));
  }

  // The first archives the day and empties its directory.
  lemma FirstPassDone(name: string, data: string) returns (states: seq<State>, steps: seq<Step>)
    ensures IsRun(states, steps, false, true) && states[0] == Empty(0, 2)
    ensures states[|steps|] == State(
      1, map[0 := map[]], map[0 := map[name := data]], map[1 := map[]],
      [Pass({0}, {}, Removing(0)), Pass({0}, {}, Packing(0, 1))], map[0 := map[name := data]], {})
  {
    hide IsRun;
    states, steps := BothPassesStart(name, data);
    states, steps := Extend(states, steps, false, true, CopyOne(0, name));
    states, steps := Extend(states, steps, false, true, Verify(0));
    states, steps := Extend(states, steps, false, true, Rename(0));
    states, steps := Extend(states, steps, false, true, RemoveOne(0, name));
  }

  /**
   Without serialisation the day is lost, although temporary names are unique and both archives pass
   their check: the second is checked against a directory the first has already emptied.
   */
  lemma OverlappingPassesLoseData(name: string, data: string) returns (states: seq<State>, steps: seq<Step>)
    ensures IsRun(states, steps, false, true) && states[0] == Empty(0, 2)
    ensures !NothingLost(states[|steps|])
  {
    hide IsRun;
    states, steps := FirstPassDone(name, data);
    states, steps := Extend(states, steps, false, true, Verify(1));
    states, steps := Extend(states, steps, false, true, Rename(1));
    var s := states[|steps|];
    assert s.full[0] == map[name := data] && name in s.full[0];
    assert !Kept(s, 0);
  }

  // ── What listing today does ──

  lemma {:induction false} FreshName(names: set<string>) returns (n: string)
    ensures n !in names && forall m :: m in names ==> |m| < |n|
    decreases names
  {
    if names == {} {
      n := "x";
    } else {
      var m :| m in names;
      n := FreshName(names - {m});
      if |n| <= |m| {
        n := m + "x";
      }
      assert forall k :: k in names ==> k == m || k in names - {m};
    }
  }

  lemma {:induction false} FreshTemp(ids: set<nat>) returns (id: nat)
    ensures forall i :: i in ids ==> i < id
    decreases ids
  {
    if ids == {} {
      id := 0;
    } else {
      var i :| i in ids;
      id := FreshTemp(ids - {i});
      if id <= i {
        id := i + 1;
      }
      assert forall k :: k in ids ==> k == i || k in ids - {i};
    }
  }

  // No further pass begins: what was begun alone stays alone.
  predicate NoBegin(steps: seq<Step>) {
    forall i :: 0 <= i < |steps| ==> !steps[i].Begin?
  }

  lemma LeadsThen(s: State, steps: seq<Step>, t: State, step: Step) returns (more: seq<Step>, u: State)
    requires Leads(s, steps, t) && NoBegin(steps) && Possible(t, step) && !step.Begin?
    ensures u == Apply(t, step) && Leads(s, more, u) && NoBegin(more)
  {
    more, u := steps + [step], Apply(t, step);
    LeadsOne(t, step);
    LeadsOn(s, steps, t, [step], u);
  }

  lemma MissingIsLost(s: State, day: int, late: string)
    requires day in s.full && late in s.full[day] && day < s.today && day !in s.pruned
    requires late !in s.Dir(day) && (day in s.archives ==> late !in s.archives[day])
    ensures !NothingLost(s)
  {
    assert !Kept(s, day);
  }

  // The verified archive of today lacks what is written after the check, and the directory loses it.
  lemma WrittenAfterCheck(s: State, p: nat, tmp: nat, late: string) returns (steps: seq<Step>, t: State)
    requires p < |s.passes| && s.passes[p].phase == Verified(s.today, tmp) && tmp in s.temps
    requires late !in s.temps[tmp] && late !in s.Written(s.today)
    ensures Leads(s, steps, t) && NoBegin(steps)
    ensures t.today == s.today && t.pruned == s.pruned && t.passes == Moved(s, p, Removing(s.today)).passes
    ensures s.today in t.archives && late !in t.archives[s.today]
    ensures late in t.Dir(s.today) && s.today in t.full && late in t.full[s.today]
  {
    var a := Apply(s, Write(late, ""));
    LeadsOne(s, Write(late, ""));
    steps, t := LeadsThen(s, [Write(late, "")], a, Rename(p));
  }

  lemma LateWriteIsLost(s: State, p: nat, tmp: nat, late: string) returns (steps: seq<Step>, t: State)
    requires p < |s.passes| && s.passes[p].phase == Verified(s.today, tmp) && tmp in s.temps
    requires late !in s.temps[tmp] && late !in s.Written(s.today) && s.today !in s.pruned
    ensures Leads(s, steps, t) && NoBegin(steps) && !NothingLost(t)
  {
    steps, t := WrittenAfterCheck(s, p, tmp, late);
    steps, t := LeadsThen(s, steps, t, RemoveOne(p, late));
    steps, t := LeadsThen(s, steps, t, NextDay);
    MissingIsLost(t, s.today, late);
  }

  /** A pass that lists today can lose what is written until it removes the directory. */
  lemma ListingTodayLosesData(s: State, p: nat, clock: int) returns (steps: seq<Step>, t: State)
    requires Safe(s) && Possible(s, Begin(p, clock)) && s.today in s.dirs.Keys - {clock}
    ensures Leads(Apply(s, Begin(p, clock)), steps, t) && NoBegin(steps) && !NothingLost(t)
  {
    assert DaySafe(s, s.today);
    var begun := Apply(s, Begin(p, clock));
    var tmp := FreshTemp(s.temps.Keys);
    var late := FreshName(s.full[s.today].Keys);
    var packing, a := PackDay(begun, p, s.today, tmp);
    var b := Apply(a, Verify(p));
    LeadsOne(a, Verify(p));
    LeadsOn(begun, packing, a, [Verify(p)], b);
    var more;
    more, t := LateWriteIsLost(b, p, tmp, late);
    LeadsOn(begun, packing + [Verify(p)], b, more, t);
    steps := packing + [Verify(p)] + more;
  }

  lemma {:induction false} SafeAlong(s: State, steps: seq<Step>, t: State)
    requires Safe(s) && Leads(s, steps, t) && NoBegin(steps)
    ensures Safe(t)
    decreases |steps|
  {
    if steps != [] {
      SafeStep(s, steps[0]);
      SafeAlong(Apply(s, steps[0]), steps[1..], t);
    }
  }

  ghost predicate CanLose(s: State) {
    exists steps, t :: Leads(s, steps, t) && NoBegin(steps) && !NothingLost(t)
  }

  /**
   Exactly when: a pass that begins alone can come to lose data, whatever happens beside it, if and only
   if its listing shows a directory of today.
   */
  lemma BeginLosesExactly(s: State, p: nat, clock: int)
    requires Safe(s) && Possible(s, Begin(p, clock)) && Alone(s, Begin(p, clock))
    ensures CanLose(Apply(s, Begin(p, clock))) <==> !ListsPast(s, Begin(p, clock))
  {
    if ListsPast(s, Begin(p, clock)) {
      SafeStep(s, Begin(p, clock));
      forall steps, t | Leads(Apply(s, Begin(p, clock)), steps, t) && NoBegin(steps)
        ensures NothingLost(t)
      {
        SafeAlong(Apply(s, Begin(p, clock)), steps, t);
        SafeIsNothingLost(t);
      }
    } else {
      var steps, t := ListingTodayLosesData(s, p, clock);
    }
  }
}
