/**
 The windowed histogram and its folding into a moving average, by many workers over one dictionary.
 A record call reads the clock once: every dictionary operation of it uses that same time. Times are
 whole milliseconds.
 */
module Windows {
  import opened Wrappers

  // `width` and `ttl` in milliseconds, `alpha` clamped at registration.
  datatype Config = Config(width: nat, ttl: nat, alpha: real)
  {
    predicate Valid() {
      width > 0 && ttl > 0 && 0.0 <= alpha <= 1.0
    }

    function Window(t: nat): nat
      requires Valid()
    {
      t / width
    }

    // ceil(ttl / width)
    function Horizon(): nat
      requires Valid()
    {
      (ttl + width - 1) / width
    }
  }

  datatype Last = Last(window: nat, expires: nat)

  // A moving average, with, as history, the statistics folded into it since it last started afresh.
  datatype Average = Average(value: real, expires: nat, chain: seq<Link>)

  datatype Link = Link(w: nat, t: nat, stat: real)

  // One record call at its time: before the read of the last window, folding from a window on, having
  // claimed a window, having computed its statistic, having read the old average, done folding, about to
  // count its sample, and having counted it.
  datatype Phase =
    | Start
    | Folding(w: nat)
    | Claimed(w: nat)
    | Computed(w: nat, stat: real)
    | Blending(w: nat, stat: real, prior: Option<Average>)
    | Closing
    | Counting
    | Counted

  // `first` is history: the first window the call had to fold.
  datatype Call = Call(t: nat, phase: Phase, first: Option<nat>)

  // A claimed window's statistic: the calls whose samples it saw, and what came out, if any did.
  datatype Stat = Stat(w: nat, seen: set<nat>, value: Option<real>)

  // `folds` and `stats` are history: the windows claimed, and the statistics computed, in order.
  datatype State = State(
    ewin: Option<Last>,
    fd: map<nat, nat>,
    average: Option<Average>,
    calls: seq<Call>,
    folds: seq<nat>,
    stats: seq<Stat>)

  // `c` is the call that takes the step. The statistic of a window is computed from samples counted into
  // it, one read after the other; which of them the reads see is left open, and none means no statistic.
  datatype Step =
    | Arrive(t: nat)
    | GetLast(c: nat)
    | Claim(c: nat)
    | Compute(c: nat, seen: set<nat>, stat: Option<real>)
    | GetOld(c: nat)
    | SetAverage(c: nat)
    | SetLast(c: nat)
    | Count(c: nat)

  // The sample of call `i` has been counted into window `w`.
  predicate InWindow(g: Config, s: State, i: nat, w: nat)
    requires g.Valid()
  {
    i < |s.calls| && s.calls[i].phase.Counted? && g.Window(s.calls[i].t) == w
  }

  predicate Possible(g: Config, s: State, step: Step)
    requires g.Valid()
  {
    if step.Arrive? then true
    else
      step.c < |s.calls| &&
      var ph := s.calls[step.c].phase;
      match step
      case GetLast(_) => ph.Start?
      case Claim(_) => ph.Folding?
      case Compute(_, seen, stat) =>
        ph.Claimed? && (forall i :: i in seen ==> InWindow(g, s, i, ph.w)) && (stat.None? <==> seen == {})
      case GetOld(_) => ph.Computed?
      case SetAverage(_) => ph.Blending?
      case SetLast(_) => ph.Closing?
      case Count(_) => ph.Counting?
      case Arrive(_) => true
  }

  function Moved(s: State, c: nat, phase: Phase): State
    requires c < |s.calls|
  {
    s.(calls := s.calls[c := s.calls[c].(phase := phase)])
  }

  // `a * v + (1 - a) * old`
  function Blend(alpha: real, stat: real, was: real): real {
    alpha * stat + (1.0 - alpha) * was
  }

  function Blended(g: Config, t: nat, w: nat, stat: real, prior: Option<Average>): Average {
    if prior.Some? then
      Average(Blend(g.alpha, stat, prior.value.value), t + g.ttl, prior.value.chain + [Link(w, t, stat)])
    else
      Average(stat, t + g.ttl, [Link(w, t, stat)])
  }

  // The first window a call folds: the one it read, but none older than the horizon.
  function FirstWindow(g: Config, win: nat, last: nat): nat
    requires g.Valid() && last < win
  {
    if win - last > g.Horizon() then win - g.Horizon() else last
  }

  function Apply(g: Config, s: State, step: Step): State
    requires g.Valid() && Possible(g, s, step)
  {
    match step
    case Arrive(t) => s.(calls := s.calls + [Call(t, Start, None)])
    case GetLast(c) =>
      var t := s.calls[c].t;
      var win := g.Window(t);
      if s.ewin.None? || s.ewin.value.expires <= t then Moved(s, c, Closing)
      else if win > s.ewin.value.window then
        var first := FirstWindow(g, win, s.ewin.value.window);
        s.(calls := s.calls[c := Call(t, Folding(first), Some(first))])
      else Moved(s, c, Counting)
    case Claim(c) =>
      var t, w := s.calls[c].t, s.calls[c].phase.w;
      if w >= g.Window(t) then Moved(s, c, Closing)
      else if w in s.fd && s.fd[w] > t then Moved(s, c, Folding(w + 1))
      else Moved(s, c, Claimed(w)).(fd := s.fd[w := t + g.ttl], folds := s.folds + [w])
    case Compute(c, seen, stat) =>
      var w := s.calls[c].phase.w;
      Moved(s, c, if stat.Some? then Computed(w, stat.value) else Folding(w + 1)).(stats := s.stats + [Stat(w, seen, stat)])
    case GetOld(c) =>
      var alive := s.average.Some? && s.average.value.expires > s.calls[c].t;
      Moved(s, c, Blending(s.calls[c].phase.w, s.calls[c].phase.stat, if alive then s.average else None))
    case SetAverage(c) =>
      var ph := s.calls[c].phase;
      Moved(s, c, Folding(ph.w + 1)).(average := Some(Blended(g, s.calls[c].t, ph.w, ph.stat, ph.prior)))
    case SetLast(c) =>
      var t := s.calls[c].t;
      Moved(s, c, Counting).(ewin := Some(Last(g.Window(t), t + g.ttl)))
    case Count(c) => Moved(s, c, Counted)
  }

  ghost predicate IsRun(g: Config, states: seq<State>, steps: seq<Step>)
    requires g.Valid()
  {
    && |states| == |steps| + 1 && states[0] == State(None, map[], None, [], [], [])
    && forall i :: 0 <= i < |steps| ==> Possible(g, states[i], steps[i]) && states[i + 1] == Apply(g, states[i], steps[i])
  }

  // ── At most one fold a window ──

  // When a claim on a window made by a call that may fold it expires, at the earliest.
  function Deadline(g: Config, w: nat): nat {
    (w + 1) * g.width + g.ttl
  }

  ghost predicate Working(p: Phase) {
    p.Folding? || p.Claimed? || p.Computed? || p.Blending?
  }

  ghost predicate NoneTwice(folds: seq<nat>) {
    forall i, j :: 0 <= i < j < |folds| ==> folds[i] != folds[j]
  }

  // A call that folds a window does so before any claim on that window can have expired.
  ghost predicate Timed(g: Config, s: State) {
    && (s.ewin.Some? ==> s.ewin.value.expires < Deadline(g, s.ewin.value.window))
    && (forall w :: w in s.fd ==> s.fd[w] >= Deadline(g, w))
    && (forall i :: 0 <= i < |s.calls| && Working(s.calls[i].phase) ==> s.calls[i].t < Deadline(g, s.calls[i].phase.w))
    && (forall w :: w in s.folds <==> w in s.fd)
    && NoneTwice(s.folds)
  }

  lemma WindowBounds(g: Config, t: nat)
    requires g.Valid()
    ensures g.Window(t) * g.width <= t < (g.Window(t) + 1) * g.width
  {
    assert t == g.width * (t / g.width) + t % g.width;
  }

  lemma DeadlineGrows(g: Config, w: nat, v: nat)
    requires w <= v
    ensures Deadline(g, w) <= Deadline(g, v)
  {
    assert (w + 1) * g.width <= (v + 1) * g.width by {
      assert (v + 1) * g.width == (w + 1) * g.width + (v - w) * g.width;
    }
  }

  lemma TimedGetLast(g: Config, s: State, c: nat)
    requires g.Valid() && Timed(g, s) && Possible(g, s, GetLast(c))
    ensures Timed(g, Apply(g, s, GetLast(c)))
  {
    var t := s.calls[c].t;
    WindowBounds(g, t);
    if s.ewin.Some? && s.ewin.value.window < g.Window(t) {
      DeadlineGrows(g, s.ewin.value.window, FirstWindow(g, g.Window(t), s.ewin.value.window));
    }
  }

  lemma TimedClaim(g: Config, s: State, c: nat)
    requires g.Valid() && Timed(g, s) && Possible(g, s, Claim(c))
    ensures Timed(g, Apply(g, s, Claim(c)))
  {
    var t, w := s.calls[c].t, s.calls[c].phase.w;
    WindowBounds(g, t);
    DeadlineGrows(g, w, w + 1);
    if w < g.Window(t) {
      DeadlineGrows(g, w, g.Window(t) - 1);
    }
  }

  // Computing, blending and storing touch no claim, and a call only moves on to a later window.
  lemma TimedWork(g: Config, s: State, step: Step)
    requires g.Valid() && Timed(g, s) && Possible(g, s, step)
    requires step.Compute? || step.GetOld? || step.SetAverage?
    ensures Timed(g, Apply(g, s, step))
  {
    DeadlineGrows(g, s.calls[step.c].phase.w, s.calls[step.c].phase.w + 1);
  }

  lemma TimedSetLast(g: Config, s: State, c: nat)
    requires g.Valid() && Timed(g, s) && Possible(g, s, SetLast(c))
    ensures Timed(g, Apply(g, s, SetLast(c)))
  {
    WindowBounds(g, s.calls[c].t);
  }

  /** Every step keeps claims alive for as long as anyone may fold their window. */
  lemma TimedStep(g: Config, s: State, step: Step)
    requires g.Valid() && Timed(g, s) && Possible(g, s, step)
    ensures Timed(g, Apply(g, s, step))
  {
    match step
    case Arrive(_) =>
    case GetLast(c) => TimedGetLast(g, s, c);
    case Claim(c) => TimedClaim(g, s, c);
    case SetLast(c) => TimedSetLast(g, s, c);
    case Count(_) =>
    case _ => TimedWork(g, s, step);
  }

  /** In every interleaving of any number of calls no window is claimed twice, whatever the ratio of ttl and width. */
  lemma {:induction false} FoldedAtMostOnce(g: Config, states: seq<State>, steps: seq<Step>, n: nat)
    requires g.Valid() && IsRun(g, states, steps) && n < |states|
    ensures Timed(g, states[n]) && NoneTwice(states[n].folds)
  {
    if n > 0 {
      FoldedAtMostOnce(g, states, steps, n - 1);
      TimedStep(g, states[n - 1], steps[n - 1]);
    }
  }

  // ── No window in between is passed over ──

  // Every window from the first one a call had to fold up to where it is has been claimed.
  ghost predicate Swept(g: Config, s: State, call: Call)
    requires g.Valid()
  {
    && (Working(call.phase) ==> call.first.Some?)
    && (call.first.Some? && Working(call.phase) ==>
          forall w :: call.first.value <= w < call.phase.w ==> w in s.fd)
    && (call.first.Some? && (call.phase.Closing? || call.phase.Counting? || call.phase.Counted?) ==>
          forall w :: call.first.value <= w < g.Window(call.t) ==> w in s.fd)
    && (call.phase.Claimed? || call.phase.Computed? || call.phase.Blending? ==> call.phase.w in s.fd)
    && (call.phase.Start? ==> call.first.None?)
  }

  ghost predicate AllSwept(g: Config, s: State)
    requires g.Valid()
  {
    forall i :: 0 <= i < |s.calls| ==> Swept(g, s, s.calls[i])
  }

  lemma SweptStep(g: Config, s: State, step: Step)
    requires g.Valid() && AllSwept(g, s) && Possible(g, s, step)
    ensures AllSwept(g, Apply(g, s, step))
  {
    var t := Apply(g, s, step);
    forall i | 0 <= i < |t.calls|
      ensures Swept(g, t, t.calls[i])
    {
      if i < |s.calls| {
        assert Swept(g, s, s.calls[i]);
      }
    }
  }

  // A claimed window has its statistic computed, or a call is about to compute it.
  ghost predicate Attended(s: State, w: nat) {
    || (exists k :: 0 <= k < |s.stats| && s.stats[k].w == w)
    || (exists i :: 0 <= i < |s.calls| && s.calls[i].phase == Claimed(w))
  }

  lemma AttendedStep(g: Config, s: State, step: Step, w: nat)
    requires g.Valid() && Possible(g, s, step) && (w in s.folds ==> Attended(s, w))
    ensures w in Apply(g, s, step).folds ==> Attended(Apply(g, s, step), w)
  {
    var t := Apply(g, s, step);
    if w in s.folds {
      if k :| 0 <= k < |s.stats| && s.stats[k].w == w {
        assert t.stats[k].w == w;
      } else {
        var i :| 0 <= i < |s.calls| && s.calls[i].phase == Claimed(w);
        if step.Compute? && step.c == i {
          assert t.stats[|s.stats|].w == w;
        } else {
          assert t.calls[i].phase == Claimed(w);
        }
      }
    } else if step.Claim? && w in t.folds {
      assert t.calls[step.c].phase == Claimed(w);
    }
  }

  lemma {:induction false} ClaimsAttended(g: Config, states: seq<State>, steps: seq<Step>, n: nat, w: nat)
    requires g.Valid() && IsRun(g, states, steps) && n < |states|
    ensures w in states[n].folds ==> Attended(states[n], w)
  {
    if n > 0 {
      ClaimsAttended(g, states, steps, n - 1, w);
      AttendedStep(g, states[n - 1], steps[n - 1], w);
    }
  }

  /**
   By the time a call moves the last window on, every window from the one it read, or from the horizon,
   up to its own has been claimed by someone, and has its statistic computed or about to be.
   */
  lemma {:induction false} NoWindowPassedOver(g: Config, states: seq<State>, steps: seq<Step>, n: nat, c: nat)
    requires g.Valid() && IsRun(g, states, steps) && n < |states|
    ensures AllSwept(g, states[n])
    ensures c < |states[n].calls| && states[n].calls[c].first.Some? && states[n].calls[c].phase.Closing? ==>
      forall w :: states[n].calls[c].first.value <= w < g.Window(states[n].calls[c].t) ==>
        w in states[n].folds && Attended(states[n], w)
  {
    if n > 0 {
      NoWindowPassedOver(g, states, steps, n - 1, c);
      SweptStep(g, states[n - 1], steps[n - 1]);
    }
    FoldedAtMostOnce(g, states, steps, n);
    forall w | w in states[n].folds {
      ClaimsAttended(g, states, steps, n, w);
    }
  }

  // ── A sample enters at most one statistic ──

  ghost predicate Unread(s: State, w: nat) {
    forall k :: 0 <= k < |s.stats| ==> s.stats[k].w != w
  }

  // A claim is held by one call, which computes its statistic once.
  ghost predicate HeldOnce(s: State) {
    && (forall i :: 0 <= i < |s.calls| && s.calls[i].phase.Claimed? ==>
          s.calls[i].phase.w in s.folds && Unread(s, s.calls[i].phase.w))
    && (forall i, j :: 0 <= i < j < |s.calls| && s.calls[i].phase.Claimed? && s.calls[j].phase.Claimed? ==>
          s.calls[i].phase.w != s.calls[j].phase.w)
    && (forall k :: 0 <= k < |s.stats| ==> s.stats[k].w in s.folds)
    && (forall k, l :: 0 <= k < l < |s.stats| ==> s.stats[k].w != s.stats[l].w)
  }

  ghost predicate SeenInWindow(g: Config, s: State)
    requires g.Valid()
  {
    forall k, i :: 0 <= k < |s.stats| && i in s.stats[k].seen ==> InWindow(g, s, i, s.stats[k].w)
  }

  lemma HeldClaim(g: Config, s: State, c: nat)
    requires g.Valid() && Timed(g, s) && HeldOnce(s) && Possible(g, s, Claim(c))
    ensures HeldOnce(Apply(g, s, Claim(c)))
  {
  }

  lemma HeldCompute(g: Config, s: State, c: nat, seen: set<nat>, stat: Option<real>)
    requires g.Valid() && HeldOnce(s) && Possible(g, s, Compute(c, seen, stat))
    ensures HeldOnce(Apply(g, s, Compute(c, seen, stat)))
  {
  }

  lemma HeldStep(g: Config, s: State, step: Step)
    requires g.Valid() && Timed(g, s) && HeldOnce(s) && Possible(g, s, step)
    ensures HeldOnce(Apply(g, s, step))
  {
    match step
    case Claim(c) => HeldClaim(g, s, c);
    case Compute(c, seen, stat) => HeldCompute(g, s, c, seen, stat);
    case _ =>
  }

  lemma SeenStep(g: Config, s: State, step: Step)
    requires g.Valid() && SeenInWindow(g, s) && Possible(g, s, step)
    ensures SeenInWindow(g, Apply(g, s, step))
  {
    var t := Apply(g, s, step);
    forall k, i | 0 <= k < |t.stats| && i in t.stats[k].seen
      ensures InWindow(g, t, i, t.stats[k].w)
    {
      assert InWindow(g, s, i, t.stats[k].w);
    }
  }

  /**
   In every interleaving the samples of any two statistics are disjoint, and each is of a call in the
   statistic's own window: a sample moves the average at most once.
   */
  lemma {:induction false} SampleUsedOnce(g: Config, states: seq<State>, steps: seq<Step>, n: nat)
    requires g.Valid() && IsRun(g, states, steps) && n < |states|
    ensures HeldOnce(states[n]) && SeenInWindow(g, states[n])
    ensures var stats := states[n].stats;
      && (forall k, l :: 0 <= k < l < |stats| ==> stats[k].seen !! stats[l].seen)
      && (forall k, i :: 0 <= k < |stats| && i in stats[k].seen ==> InWindow(g, states[n], i, stats[k].w))
  {
    if n > 0 {
      SampleUsedOnce(g, states, steps, n - 1);
      FoldedAtMostOnce(g, states, steps, n - 1);
      HeldStep(g, states[n - 1], steps[n - 1]);
      SeenStep(g, states[n - 1], steps[n - 1]);
    }
    var s := states[n];
    forall k, l, i | 0 <= k < l < |s.stats| && i in s.stats[k].seen
      ensures i !in s.stats[l].seen
    {
      assert InWindow(g, s, i, s.stats[k].w);
      assert i in s.stats[l].seen ==> InWindow(g, s, i, s.stats[l].w);
    }
  }

  /**
   A call folds exactly when the last window it reads has not expired and is before its own; without one it
   only sets it, and in the same window it only counts its sample.
   */
  lemma FoldsExactlyWhen(g: Config, s: State, c: nat)
    requires g.Valid() && Possible(g, s, GetLast(c))
    ensures var t, phase := s.calls[c].t, Apply(g, s, GetLast(c)).calls[c].phase;
      var read := s.ewin.Some? && t < s.ewin.value.expires;
      && (phase.Folding? <==> read && s.ewin.value.window < g.Window(t))
      && (phase.Closing? <==> !read) && (phase.Folding? || phase.Closing? || phase.Counting?)
  {
  }

  /** Where a call begins: at the window it read, unless that is older than the lifetime reaches. */
  lemma FirstIsRecent(g: Config, win: nat, last: nat)
    requires g.Valid() && last < win
    ensures last <= FirstWindow(g, win, last) < win
    ensures FirstWindow(g, win, last) == last || win - FirstWindow(g, win, last) == g.Horizon()
    ensures g.Horizon() >= 1 && g.Horizon() * g.width >= g.ttl
  {
    var n := g.ttl + g.width - 1;
    assert n == g.width * (n / g.width) + n % g.width;
    assert g.Horizon() * g.width == n - n % g.width;
    if g.Horizon() == 0 {
      assert false;
    }
  }

  // ── The average stays among the statistics it is made of ──

  // The links of an average: each was added while the one before it had not expired.
  ghost predicate Linked(chain: seq<Link>, ttl: nat) {
    chain != [] && forall i :: 0 < i < |chain| ==> chain[i].t < chain[i - 1].t + ttl
  }

  ghost predicate Among(value: real, chain: seq<Link>) {
    && (exists i :: 0 <= i < |chain| && chain[i].stat <= value)
    && (exists i :: 0 <= i < |chain| && value <= chain[i].stat)
  }

  ghost predicate Grounded(a: Average, ttl: nat) {
    Linked(a.chain, ttl) && Among(a.value, a.chain) && a.expires == a.chain[|a.chain| - 1].t + ttl
  }

  ghost predicate AllGrounded(g: Config, s: State) {
    && (s.average.Some? ==> Grounded(s.average.value, g.ttl))
    && forall i :: 0 <= i < |s.calls| && s.calls[i].phase.Blending? && s.calls[i].phase.prior.Some? ==>
         Grounded(s.calls[i].phase.prior.value, g.ttl) && s.calls[i].t < s.calls[i].phase.prior.value.expires
  }

  lemma BlendBetween(alpha: real, stat: real, prior: real)
    requires 0.0 <= alpha <= 1.0
    ensures stat <= prior ==> stat <= Blend(alpha, stat, prior) <= prior
    ensures prior <= stat ==> prior <= Blend(alpha, stat, prior) <= stat
  {
    var d := stat - prior;
    assert Blend(alpha, stat, prior) == prior + alpha * d;
    if d >= 0.0 {
      assert 0.0 <= alpha * d <= d;
    } else {
      assert d <= alpha * d <= 0.0;
    }
  }

  lemma BlendedGrounded(g: Config, t: nat, w: nat, stat: real, prior: Option<Average>)
    requires g.Valid()
    requires prior.Some? ==> Grounded(prior.value, g.ttl) && t < prior.value.expires
    ensures Grounded(Blended(g, t, w, stat, prior), g.ttl)
  {
    var blended := Blended(g, t, w, stat, prior);
    if prior.None? {
      assert blended.chain[0].stat <= blended.value <= blended.chain[0].stat;
    } else {
      var chain, n := prior.value.chain, |prior.value.chain|;
      BlendBetween(g.alpha, stat, prior.value.value);
      assert blended.chain[n] == Link(w, t, stat);
      var lo :| 0 <= lo < n && chain[lo].stat <= prior.value.value;
      var hi :| 0 <= hi < n && prior.value.value <= chain[hi].stat;
      assert blended.chain[lo] == chain[lo] && blended.chain[hi] == chain[hi];
      if stat <= prior.value.value {
        assert blended.chain[n].stat <= blended.value <= blended.chain[hi].stat;
      } else {
        assert blended.chain[lo].stat <= blended.value <= blended.chain[n].stat;
      }
    }
  }

  lemma GroundedStep(g: Config, s: State, step: Step)
    requires g.Valid() && AllGrounded(g, s) && Possible(g, s, step)
    ensures AllGrounded(g, Apply(g, s, step))
  {
    if step.SetAverage? {
      var call := s.calls[step.c];
      BlendedGrounded(g, call.t, call.phase.w, call.phase.stat, call.phase.prior);
    }
  }

  /**
   In every interleaving, lost updates included, the average lies between the least and the greatest of
   the statistics folded into it, each of them folded in while the one before had not expired.
   */
  lemma {:induction false} AverageAmongStatistics(g: Config, states: seq<State>, steps: seq<Step>, n: nat)
    requires g.Valid() && IsRun(g, states, steps) && n < |states|
    ensures AllGrounded(g, states[n])
    ensures states[n].average.Some? ==> var a := states[n].average.value; Linked(a.chain, g.ttl) && Among(a.value, a.chain)
  {
    if n > 0 {
      AverageAmongStatistics(g, states, steps, n - 1);
      GroundedStep(g, states[n - 1], steps[n - 1]);
    }
  }

  // ── Each statistic enters the average at most once ──

  predicate Pending(p: Phase) {
    p.Claimed? || p.Computed? || p.Blending?
  }

  // The statistic of window `w` came out as `stat`.
  ghost predicate CameOut(s: State, w: nat, stat: real) {
    exists k :: 0 <= k < |s.stats| && s.stats[k].w == w && s.stats[k].value == Some(stat)
  }

  // The links of a chain are statistics that came out, of windows that are all different.
  ghost predicate Sourced(s: State, chain: seq<Link>) {
    && (forall i :: 0 <= i < |chain| ==> CameOut(s, chain[i].w, chain[i].stat) && chain[i].w in s.folds)
    && (forall i, j :: 0 <= i < j < |chain| ==> chain[i].w != chain[j].w)
  }

  // No link of the chain is of a window that some call still works on, other than call `c`.
  ghost predicate Clear(s: State, chain: seq<Link>) {
    forall i, k :: 0 <= i < |chain| && 0 <= k < |s.calls| && Pending(s.calls[k].phase) ==> chain[i].w != s.calls[k].phase.w
  }

  ghost predicate Kept(s: State, a: Option<Average>) {
    a.Some? ==> Sourced(s, a.value.chain) && Clear(s, a.value.chain)
  }

  ghost predicate AllKept(s: State) {
    && (forall i :: 0 <= i < |s.calls| && Pending(s.calls[i].phase) ==> s.calls[i].phase.w in s.folds)
    && (forall i, j :: 0 <= i < j < |s.calls| && Pending(s.calls[i].phase) && Pending(s.calls[j].phase) ==>
          s.calls[i].phase.w != s.calls[j].phase.w)
    && (forall i :: 0 <= i < |s.calls| && (s.calls[i].phase.Computed? || s.calls[i].phase.Blending?) ==>
          CameOut(s, s.calls[i].phase.w, s.calls[i].phase.stat))
    && Kept(s, s.average)
    && (forall i :: 0 <= i < |s.calls| && s.calls[i].phase.Blending? ==> Kept(s, s.calls[i].phase.prior))
  }

  // A call comes to work on a window by claiming it, and no window is claimed twice.
  lemma PendingMoves(g: Config, s: State, step: Step, k: nat)
    requires g.Valid() && Timed(g, s) && Possible(g, s, step)
    requires k < |Apply(g, s, step).calls| && Pending(Apply(g, s, step).calls[k].phase)
    ensures var w := Apply(g, s, step).calls[k].phase.w;
      || (k < |s.calls| && Pending(s.calls[k].phase) && s.calls[k].phase.w == w)
      || (step == Claim(k) && w !in s.folds && w in Apply(g, s, step).folds)
  {
  }

  lemma CameOutStays(g: Config, s: State, step: Step, w: nat, stat: real)
    requires g.Valid() && Possible(g, s, step) && CameOut(s, w, stat)
    ensures CameOut(Apply(g, s, step), w, stat)
  {
    var k :| 0 <= k < |s.stats| && s.stats[k].w == w && s.stats[k].value == Some(stat);
    assert Apply(g, s, step).stats[k] == s.stats[k];
  }

  lemma KeptStays(g: Config, s: State, step: Step, a: Option<Average>)
    requires g.Valid() && Timed(g, s) && Possible(g, s, step) && Kept(s, a)
    ensures Kept(Apply(g, s, step), a)
  {
    var t := Apply(g, s, step);
    if a.Some? {
      var chain := a.value.chain;
      assert forall w :: w in s.folds ==> w in t.folds;
      forall i | 0 <= i < |chain|
        ensures CameOut(t, chain[i].w, chain[i].stat) && chain[i].w in t.folds
      {
        CameOutStays(g, s, step, chain[i].w, chain[i].stat);
      }
      forall i, k | 0 <= i < |chain| && 0 <= k < |t.calls| && Pending(t.calls[k].phase)
        ensures chain[i].w != t.calls[k].phase.w
      {
        PendingMoves(g, s, step, k);
      }
    }
  }

  lemma AverageKept(g: Config, s: State, c: nat)
    requires g.Valid() && Timed(g, s) && AllKept(s) && Possible(g, s, SetAverage(c))
    ensures Kept(Apply(g, s, SetAverage(c)), Apply(g, s, SetAverage(c)).average)
  {
    var t, ph := Apply(g, s, SetAverage(c)), s.calls[c].phase;
    KeptStays(g, s, SetAverage(c), ph.prior);
    CameOutStays(g, s, SetAverage(c), ph.w, ph.stat);
    assert ph.w in t.folds;
    forall k | 0 <= k < |t.calls| && Pending(t.calls[k].phase)
      ensures ph.w != t.calls[k].phase.w
    {
      PendingMoves(g, s, SetAverage(c), k);
    }
  }

  lemma PendingStep(g: Config, s: State, step: Step)
    requires g.Valid() && Timed(g, s) && AllKept(s) && Possible(g, s, step)
    ensures var t := Apply(g, s, step);
      && (forall i :: 0 <= i < |t.calls| && Pending(t.calls[i].phase) ==> t.calls[i].phase.w in t.folds)
      && (forall i, j :: 0 <= i < j < |t.calls| && Pending(t.calls[i].phase) && Pending(t.calls[j].phase) ==>
            t.calls[i].phase.w != t.calls[j].phase.w)
  {
    var t := Apply(g, s, step);
    assert forall w :: w in s.folds ==> w in t.folds;
    forall i | 0 <= i < |t.calls| && Pending(t.calls[i].phase) {
      PendingMoves(g, s, step, i);
    }
    hide Apply, Possible, Pending;
  }

  lemma ComputedStep(g: Config, s: State, step: Step, i: nat)
    requires g.Valid() && AllKept(s) && Possible(g, s, step) && i < |Apply(g, s, step).calls|
    ensures var t := Apply(g, s, step);
      t.calls[i].phase.Computed? || t.calls[i].phase.Blending? ==> CameOut(t, t.calls[i].phase.w, t.calls[i].phase.stat)
  {
    var t := Apply(g, s, step);
    var ph := t.calls[i].phase;
    if ph.Computed? || ph.Blending? {
      if step.Compute? && step.c == i {
        assert t.stats[|s.stats|].w == ph.w && t.stats[|s.stats|].value == Some(ph.stat);
      } else {
        CameOutStays(g, s, step, ph.w, ph.stat);
      }
    }
  }

  lemma PriorKept(g: Config, s: State, step: Step, i: nat)
    requires g.Valid() && Timed(g, s) && AllKept(s) && Possible(g, s, step)
    requires i < |Apply(g, s, step).calls| && Apply(g, s, step).calls[i].phase.Blending?
    ensures Kept(Apply(g, s, step), Apply(g, s, step).calls[i].phase.prior)
  {
    if step == GetOld(i) {
      KeptStays(g, s, step, s.average);
    } else {
      KeptStays(g, s, step, s.calls[i].phase.prior);
    }
  }

  lemma KeptStep(g: Config, s: State, step: Step)
    requires g.Valid() && Timed(g, s) && AllKept(s) && Possible(g, s, step)
    ensures AllKept(Apply(g, s, step))
  {
    var t := Apply(g, s, step);
    PendingStep(g, s, step);
    forall i | 0 <= i < |t.calls| {
      ComputedStep(g, s, step, i);
    }
    if step.SetAverage? {
      AverageKept(g, s, step.c);
    } else {
      KeptStays(g, s, step, s.average);
    }
    forall i | 0 <= i < |t.calls| && t.calls[i].phase.Blending? {
      PriorKept(g, s, step, i);
    }
  }

  /**
   In every interleaving the statistics an average is made of came out of windows that are all different:
   no window, and so no sample, moves it twice.
   */
  lemma {:induction false} StatisticsUsedOnce(g: Config, states: seq<State>, steps: seq<Step>, n: nat)
    requires g.Valid() && IsRun(g, states, steps) && n < |states|
    ensures AllKept(states[n])
    ensures states[n].average.Some? ==> var chain := states[n].average.value.chain;
      && (forall i :: 0 <= i < |chain| ==> CameOut(states[n], chain[i].w, chain[i].stat))
      && (forall i, j :: 0 <= i < j < |chain| ==> chain[i].w != chain[j].w)
  {
    if n > 0 {
      StatisticsUsedOnce(g, states, steps, n - 1);
      FoldedAtMostOnce(g, states, steps, n - 1);
      KeptStep(g, states[n - 1], steps[n - 1]);
    }
  }

  /**
   A fold that nobody else's comes between loses nothing: the average afterwards is made of what it was made of
   when the call read it, if it had not expired, and of the call's own statistic.
   */
  lemma {:induction false} UndisturbedFold(g: Config, states: seq<State>, steps: seq<Step>, c: nat, r: nat, m: nat)
    requires g.Valid() && IsRun(g, states, steps) && r < m < |steps|
    requires steps[r] == GetOld(c) && steps[m] == SetAverage(c)
    requires forall i :: r < i < m ==> !steps[i].SetAverage? && (steps[i].Arrive? || steps[i].c != c)
    ensures states[m].average == states[r].average && c < |states[r].calls| && states[r].calls[c].phase.Computed?
    ensures states[m + 1].average.Some?
    ensures var t, ph, was, now :=
        states[r].calls[c].t, states[r].calls[c].phase, states[m].average, states[m + 1].average.value;
      && now.expires == t + g.ttl
      && now.chain ==
           (if was.Some? && was.value.expires > t then was.value.chain else []) + [Link(ph.w, t, ph.stat)]
  {
    Between(g, states, steps, c, r, m);
  }

  lemma {:induction false} Between(g: Config, states: seq<State>, steps: seq<Step>, c: nat, r: nat, m: nat)
    requires g.Valid() && IsRun(g, states, steps) && r < m < |states| && steps[r] == GetOld(c)
    requires forall i :: r < i < m ==> !steps[i].SetAverage? && (steps[i].Arrive? || steps[i].c != c)
    ensures states[m].average == states[r].average && c < |states[r].calls| && c < |states[m].calls|
    ensures states[m].calls[c] == states[r + 1].calls[c]
  {
    if m > r + 1 {
      Between(g, states, steps, c, r, m - 1);
      assert Possible(g, states[m - 1], steps[m - 1]) && states[m] == Apply(g, states[m - 1], steps[m - 1]);
    } else {
      assert Possible(g, states[r], steps[r]) && states[r + 1] == Apply(g, states[r], steps[r]);
    }
  }

  // ── What the average weighs ──

  function Power(x: real, n: nat): real {
    if n == 0 then 1.0 else x * Power(x, n - 1)
  }

  // The weight, in an average of n + 1 statistics, of statistic `i`; the last one has index n.
  function Weight(alpha: real, n: nat, i: nat): real
    requires i <= n
  {
    if i == 0 then Power(1.0 - alpha, n) else alpha * Power(1.0 - alpha, n - i)
  }

  function Term(alpha: real, n: nat, i: nat, x: real): real
    requires i <= n
  {
    Weight(alpha, n, i) * x
  }

  // The first k terms of the weighted sum of a chain whose last index is n.
  function Weighted(alpha: real, chain: seq<Link>, n: nat, k: nat): real
    requires k <= |chain| && k <= n + 1
  {
    if k == 0 then 0.0 else Weighted(alpha, chain, n, k - 1) + Term(alpha, n, k - 1, chain[k - 1].stat)
  }

  // (1-alpha)^n * x0 plus the sum of alpha * (1-alpha)^(n-i) * xi over the other statistics.
  function WeightedSum(alpha: real, chain: seq<Link>): real
    requires chain != []
  {
    Weighted(alpha, chain, |chain| - 1, |chain|)
  }

  // What one more statistic makes of what an earlier one weighs.
  function Faded(alpha: real, v: real): real {
    (1.0 - alpha) * v
  }

  lemma TermFades(alpha: real, n: nat, i: nat, x: real)
    requires i <= n
    ensures Term(alpha, n + 1, i, x) == Faded(alpha, Term(alpha, n, i, x))
  {
    var b := 1.0 - alpha;
    if i == 0 {
      assert (b * Power(b, n)) * x == b * (Power(b, n) * x);
    } else {
      var p := Power(b, n - i);
      assert Power(b, n + 1 - i) == b * p;
      assert (alpha * (b * p)) * x == b * ((alpha * p) * x);
    }
  }

  lemma FadesBoth(alpha: real, x: real, y: real)
    ensures Faded(alpha, x + y) == Faded(alpha, x) + Faded(alpha, y)
  {
  }

  // One more statistic takes the weight of every earlier one down by the same factor.
  lemma {:induction false} SumFades(alpha: real, chain: seq<Link>, link: Link, n: nat, k: nat)
    requires k <= |chain| && k <= n + 1
    ensures Weighted(alpha, chain + [link], n + 1, k) == Faded(alpha, Weighted(alpha, chain, n, k))
  {
    hide Term;
    if k > 0 {
      SumFades(alpha, chain, link, n, k - 1);
      TermFades(alpha, n, k - 1, chain[k - 1].stat);
      assert (chain + [link])[k - 1] == chain[k - 1];
      hide Faded;
      FadesBoth(alpha, Weighted(alpha, chain, n, k - 1), Term(alpha, n, k - 1, chain[k - 1].stat));
    }
  }

  lemma SumExtends(alpha: real, chain: seq<Link>, link: Link)
    requires chain != []
    ensures WeightedSum(alpha, chain + [link]) == (1.0 - alpha) * WeightedSum(alpha, chain) + alpha * link.stat
  {
    var n := |chain| - 1;
    SumFades(alpha, chain, link, n, n + 1);
    assert (chain + [link])[n + 1] == link;
    assert Weight(alpha, n + 1, n + 1) == alpha;
  }

  ghost predicate IsWeighted(alpha: real, a: Average) {
    a.chain != [] && a.value == WeightedSum(alpha, a.chain)
  }

  ghost predicate AllWeighted(g: Config, s: State) {
    && (s.average.Some? ==> IsWeighted(g.alpha, s.average.value))
    && forall i :: 0 <= i < |s.calls| && s.calls[i].phase.Blending? && s.calls[i].phase.prior.Some? ==>
         IsWeighted(g.alpha, s.calls[i].phase.prior.value)
  }

  lemma BlendedWeighted(g: Config, t: nat, w: nat, stat: real, prior: Option<Average>)
    requires prior.Some? ==> IsWeighted(g.alpha, prior.value)
    ensures IsWeighted(g.alpha, Blended(g, t, w, stat, prior))
  {
    if prior.Some? {
      SumExtends(g.alpha, prior.value.chain, Link(w, t, stat));
    } else {
      assert Weighted(g.alpha, [Link(w, t, stat)], 0, 0) == 0.0;
    }
  }

  lemma WeightedStep(g: Config, s: State, step: Step)
    requires g.Valid() && AllWeighted(g, s) && Possible(g, s, step)
    ensures AllWeighted(g, Apply(g, s, step))
  {
    if step.SetAverage? {
      var call := s.calls[step.c];
      BlendedWeighted(g, call.t, call.phase.w, call.phase.stat, call.phase.prior);
    }
  }

  /**
   In every interleaving, lost updates included, the average is the weighted sum of the statistics folded
   into it: each new one weighs alpha, and every earlier one (1 - alpha) times what it weighed before.
   */
  lemma {:induction false} AverageIsWeightedSum(g: Config, states: seq<State>, steps: seq<Step>, n: nat)
    requires g.Valid() && IsRun(g, states, steps) && n < |states|
    ensures AllWeighted(g, states[n])
    ensures states[n].average.Some? ==> var a := states[n].average.value;
      a.chain != [] && a.value == WeightedSum(g.alpha, a.chain)
  {
    if n > 0 {
      AverageIsWeightedSum(g, states, steps, n - 1);
      WeightedStep(g, states[n - 1], steps[n - 1]);
    }
  }

  function Weights(alpha: real, n: nat, k: nat): real
    requires k <= n + 1
  {
    if k == 0 then 0.0 else Weights(alpha, n, k - 1) + Weight(alpha, n, k - 1)
  }

  lemma {:induction false} WeightsFade(alpha: real, n: nat, k: nat)
    requires k <= n + 1
    ensures Weights(alpha, n + 1, k) == Faded(alpha, Weights(alpha, n, k))
  {
    if k > 0 {
      WeightsFade(alpha, n, k - 1);
      TermFades(alpha, n, k - 1, 1.0);
    }
  }

  /** The weights of an average add up to one. */
  lemma {:induction false} WeightsAddUp(alpha: real, n: nat)
    ensures Weights(alpha, n, n + 1) == 1.0
  {
    if n > 0 {
      WeightsAddUp(alpha, n - 1);
      WeightsFade(alpha, n - 1, n);
      assert Weight(alpha, n, n) == alpha;
    } else {
      assert Weights(alpha, 0, 0) == 0.0;
    }
  }

  /** The half-life: after k more statistics equal to x, the distance to x is (1-alpha)^k times what it was. */
  lemma {:induction false} DistanceShrinks(alpha: real, chain: seq<Link>, more: seq<Link>, x: real)
    requires chain != [] && forall i :: 0 <= i < |more| ==> more[i].stat == x
    ensures WeightedSum(alpha, chain + more) - x == Power(1.0 - alpha, |more|) * (WeightedSum(alpha, chain) - x)
  {
    if more == [] {
      assert chain + more == chain;
    } else {
      var k := |more| - 1;
      DistanceShrinks(alpha, chain, more[..k], x);
      assert chain + more == (chain + more[..k]) + [more[k]];
      SumExtends(alpha, chain + more[..k], more[k]);
      var b, p, d := 1.0 - alpha, Power(1.0 - alpha, k), WeightedSum(alpha, chain) - x;
      assert (b * p) * d == b * (p * d);
    }
  }
}

/**
 One window's histogram: the bucket of a sample, and the quantile read off the counts.
 */
module Histogram {
  import opened Wrappers

  predicate Ascending(bounds: seq<real>) {
    forall i, j :: 0 <= i < j < |bounds| ==> bounds[i] < bounds[j]
  }

  // Position |bounds| is the overflow bucket.
  method BucketIndex(bounds: seq<real>, sample: real) returns (k: nat)
    ensures k == Bucket(bounds, sample)
  {
    k := 0;
    while k < |bounds|
      invariant 0 <= k <= |bounds|
      invariant forall i :: 0 <= i < k ==> sample > bounds[i]
      invariant Bucket(bounds, sample) == k + Bucket(bounds[k..], sample)
    {
      if sample <= bounds[k] {
        return;
      }
      assert bounds[k..][1..] == bounds[k + 1..];
      k := k + 1;
    }
  }

  function Bucket(bounds: seq<real>, sample: real): (k: nat)
    ensures k <= |bounds|
    ensures k < |bounds| ==> sample <= bounds[k]
    ensures forall i :: 0 <= i < k ==> sample > bounds[i]
  {
    if bounds == [] || sample <= bounds[0] then 0
    else
      var k := Bucket(bounds[1..], sample);
      assert forall i :: 0 < i <= k ==> i <= |bounds[1..]| && (i - 1 < k ==> bounds[1..][i - 1] == bounds[i]);
      1 + k
  }

  function CountIn(samples: seq<real>, bounds: seq<real>, k: nat): nat {
    if samples == [] then 0
    else
      var n := |samples| - 1;
      CountIn(samples[..n], bounds, k) + if Bucket(bounds, samples[n]) == k then 1 else 0
  }

  function CountUpTo(samples: seq<real>, x: real): nat {
    if samples == [] then 0
    else
      var n := |samples| - 1;
      CountUpTo(samples[..n], x) + if samples[n] <= x then 1 else 0
  }

  function Sum(counts: seq<nat>): nat {
    if counts == [] then 0 else Sum(counts[..|counts| - 1]) + counts[|counts| - 1]
  }

  // The counts of a window are those of its samples.
  ghost predicate Counts(counts: seq<nat>, samples: seq<real>, bounds: seq<real>) {
    |counts| == |bounds| + 1 && forall k :: 0 <= k < |counts| ==> counts[k] == CountIn(samples, bounds, k)
  }

  // `n` of `total` is less than the fraction q.
  predicate Short(n: nat, total: nat, q: real) {
    (n as real) < total as real * q
  }

  function UpTo(counts: seq<nat>, k: nat): nat
    requires k < |counts|
  {
    Sum(counts[..k + 1])
  }

  /** `window_quantile`: the bound of the first bucket at which the running count reaches the target. */
  method WindowQuantile(counts: seq<nat>, bounds: seq<real>, q: real) returns (v: Option<real>, ghost k: nat)
    requires |bounds| >= 1 && |counts| == |bounds| + 1
    ensures v.None? <==> Sum(counts) == 0
    ensures v.Some? ==> Reaches(counts, q, k) && v.value == Representative(bounds, k)
  {
    var total := 0;
    for i := 0 to |counts|
      invariant total == Sum(counts[..i])
    {
      assert counts[..i + 1][..i] == counts[..i];
      total := total + counts[i];
    }
    assert counts[..|counts|] == counts;
    v, k := None, 0;
    if total == 0 {
      return;
    }
    var cum := 0;
    for i := 0 to |counts|
      invariant cum == Sum(counts[..i])
      invariant forall j :: 0 <= j < i ==> Short(UpTo(counts, j), total, q)
    {
      assert counts[..i + 1][..i] == counts[..i];
      cum := cum + counts[i];
      if !Short(cum, total, q) {
        return Some(Representative(bounds, i)), i;
      }
    }
    v, k := Some(bounds[|bounds| - 1] * 2.0), |bounds|;
  }

  function Representative(bounds: seq<real>, k: nat): real
    requires |bounds| >= 1 && k <= |bounds|
  {
    if k < |bounds| then bounds[k] else bounds[|bounds| - 1] * 2.0
  }

  // Bucket `k` is the first whose running count reaches q of all, or the last when none does.
  ghost predicate Reaches(counts: seq<nat>, q: real, k: nat) {
    && k < |counts|
    && (k == |counts| - 1 || !Short(UpTo(counts, k), Sum(counts), q))
    && forall j :: 0 <= j < k ==> Short(UpTo(counts, j), Sum(counts), q)
  }

  lemma {:induction false} ZeroCounts(counts: seq<nat>, n: nat)
    requires n <= |counts| && forall k :: 0 <= k < |counts| ==> counts[k] == 0
    ensures Sum(counts[..n]) == 0
  {
    if n > 0 {
      assert counts[..n][..n - 1] == counts[..n - 1];
      ZeroCounts(counts, n - 1);
    }
  }

  // The sample that goes in last raises the running count from its bucket on.
  lemma {:induction false} OneMoreSample(a: seq<nat>, b: seq<nat>, k: nat, n: nat)
    requires |a| == |b| && n <= |a| && k < |a|
    requires forall i :: 0 <= i < |a| ==> b[i] == a[i] + if i == k then 1 else 0
    ensures Sum(b[..n]) == Sum(a[..n]) + if k < n then 1 else 0
  {
    if n > 0 {
      assert a[..n][..n - 1] == a[..n - 1] && b[..n][..n - 1] == b[..n - 1];
      OneMoreSample(a, b, k, n - 1);
    }
  }

  lemma {:induction false} RunningCount(counts: seq<nat>, samples: seq<real>, bounds: seq<real>, k: nat)
    requires Counts(counts, samples, bounds) && Ascending(bounds)
    ensures k < |bounds| ==> Sum(counts[..k + 1]) == CountUpTo(samples, bounds[k])
    ensures Sum(counts) == |samples|
    decreases |samples|
  {
    assert counts[..|counts|] == counts;
    if samples == [] {
      ZeroCounts(counts, |counts|);
      if k < |bounds| {
        ZeroCounts(counts, k + 1);
      }
    } else {
      var n := |samples| - 1;
      var before := seq(|counts|, i requires 0 <= i < |counts| => CountIn(samples[..n], bounds, i));
      var b := Bucket(bounds, samples[n]);
      RunningCount(before, samples[..n], bounds, k);
      assert before[..|before|] == before;
      OneMoreSample(before, counts, b, |counts|);
      if k < |bounds| {
        OneMoreSample(before, counts, b, k + 1);
        assert samples[n] <= bounds[k] <==> b <= k;
      }
    }
  }

  /**
   What the quantile means for the samples: the least bound that at least q of them do not exceed; when
   no bound is, the overflow value, twice the last bound.
   */
  lemma QuantileOfSamples(counts: seq<nat>, samples: seq<real>, bounds: seq<real>, q: real, k: nat)
    requires Counts(counts, samples, bounds) && Ascending(bounds) && |bounds| >= 1 && Reaches(counts, q, k)
    ensures k < |bounds| ==> CountUpTo(samples, bounds[k]) as real >= |samples| as real * q
    ensures forall j :: 0 <= j < k && j < |bounds| ==> (CountUpTo(samples, bounds[j]) as real) < |samples| as real * q
  {
    RunningCount(counts, samples, bounds, k);
    forall j | 0 <= j < k && j < |bounds|
      ensures (CountUpTo(samples, bounds[j]) as real) < |samples| as real * q
    {
      RunningCount(counts, samples, bounds, j);
      assert Short(UpTo(counts, j), Sum(counts), q);
    }
  }
}
