/**
 Admission counters across workers. Every dictionary operation is one atomic step, steps of different
 requests interleave freely, and a request's gate reads the per-peer counters one after the other.
 */
module Admission {

  // Where a request is: reading counters for its gate, past the gate, charged to a peer, between the
  // decrement and the increment of a retry, or finished (rejected, abandoned or released).
  datatype Phase = Reading(next: nat, sum: int) | Passed | Charged(key: nat) | Moving(to: nat) | Gone

  // The sets are history that no step reads. When this request started its gate, `before` were the
  // ordinary requests in flight, `beside` the requests in their window and `afloat` the requests between
  // two peers; `slipped` are the gates that were reading when a retry took this one off its peer.
  datatype Request = Request(
    phase: Phase, probe: bool, before: set<nat>, beside: set<nat>, afloat: set<nat>, slipped: set<nat>)
  {
    // Started its gate and not yet charged.
    predicate InWindow() {
      phase.Reading? || phase.Passed?
    }

    // What the overshoot bound counts: in flight, between two peers included, and no probe.
    predicate Ordinary() {
      (phase.Charged? || phase.Moving?) && !probe
    }
  }

  // Peers are numbered; so are requests, in the order in which they start.
  datatype State = State(counters: seq<int>, requests: seq<Request>)

  datatype Step =
    | Start(probe: bool)
    | Read(r: nat)
    | Decide(r: nat, limit: real)
    | Charge(r: nat, key: nat)
    | MoveOut(r: nat, to: nat)
    | MoveIn(r: nat)
    | Release(r: nat)
    | Abandon(r: nat)

  ghost function Window(s: State): set<nat> {
    set r | 0 <= r < |s.requests| && s.requests[r].InWindow()
  }

  ghost function ChargedTo(s: State, key: nat): set<nat> {
    set r | 0 <= r < |s.requests| && s.requests[r].phase == Charged(key)
  }

  ghost function AllCharged(s: State): set<nat> {
    set r | 0 <= r < |s.requests| && s.requests[r].phase.Charged?
  }

  ghost function Readers(s: State): set<nat> {
    set r | 0 <= r < |s.requests| && s.requests[r].phase.Reading?
  }

  ghost function Afloat(s: State): set<nat> {
    set r | 0 <= r < |s.requests| && s.requests[r].phase.Moving?
  }

  ghost function Ordinaries(s: State): set<nat> {
    set r | 0 <= r < |s.requests| && s.requests[r].Ordinary()
  }

  predicate In(s: State, r: nat) {
    r < |s.requests|
  }

  predicate Possible(s: State, step: Step) {
    match step
    case Start(_) => true
    case Read(r) => In(s, r) && s.requests[r].phase.Reading? && s.requests[r].phase.next < |s.counters|
    case Decide(r, _) => In(s, r) && s.requests[r].phase.Reading? && s.requests[r].phase.next == |s.counters|
    case Charge(r, key) => In(s, r) && s.requests[r].phase.Passed? && key < |s.counters|
    case MoveOut(r, to) =>
      In(s, r) && s.requests[r].phase.Charged? && s.requests[r].phase.key < |s.counters| && to < |s.counters|
    case MoveIn(r) => In(s, r) && s.requests[r].phase.Moving? && s.requests[r].phase.to < |s.counters|
    case Release(r) => In(s, r) && s.requests[r].phase.Charged? && s.requests[r].phase.key < |s.counters|
    case Abandon(r) => In(s, r) && s.requests[r].InWindow()
  }

  // At most `slots` requests are in their window at a time, and no effective limit exceeds `top`.
  ghost predicate Crowded(s: State, step: Step, slots: nat, top: real) {
    && (step.Start? ==> |Window(s)| < slots)
    && (step.Decide? ==> step.limit <= top)
  }

  function Bumped(counters: seq<int>, key: nat, d: int): seq<int>
    requires key < |counters|
  {
    counters[key := counters[key] + d]
  }

  // A decrement that falls below zero is set back to zero.
  function Dropped(counters: seq<int>, key: nat): seq<int>
    requires key < |counters|
  {
    counters[key := if counters[key] - 1 < 0 then 0 else counters[key] - 1]
  }

  function At(s: State, r: nat, phase: Phase): State
    requires In(s, r)
  {
    s.(requests := s.requests[r := s.requests[r].(phase := phase)])
  }

  ghost function Apply(s: State, step: Step): State
    requires Possible(s, step)
  {
    match step
    case Start(probe) =>
      var r := Request(Reading(0, 0), probe, Ordinaries(s), Window(s) + {|s.requests|}, Afloat(s), {});
      s.(requests := s.requests + [r])
    case Read(r) =>
      var p := s.requests[r].phase;
      At(s, r, Reading(p.next + 1, p.sum + s.counters[p.next]))
    case Decide(r, limit) =>
      var over := s.requests[r].phase.sum as real >= limit;
      At(s, r, if over && !s.requests[r].probe then Gone else Passed)
    case Charge(r, key) => At(s, r, Charged(key)).(counters := Bumped(s.counters, key, 1))
    case MoveOut(r, to) =>
      var q := s.requests[r];
      s.(counters := Dropped(s.counters, q.phase.key),
         requests := s.requests[r := q.(phase := Moving(to), slipped := q.slipped + Readers(s))])
    case MoveIn(r) =>
      var to := s.requests[r].phase.to;
      At(s, r, Charged(to)).(counters := Bumped(s.counters, to, 1))
    case Release(r) => At(s, r, Gone).(counters := Dropped(s.counters, s.requests[r].phase.key))
    case Abandon(r) => At(s, r, Gone)
  }

  function Fresh(peers: nat): State {
    State(seq(peers, _ => 0), [])
  }

  // A run from idle counters: each step possible where it is taken, within the crowding bounds.
  ghost predicate IsRun(peers: nat, states: seq<State>, steps: seq<Step>, slots: nat, top: real) {
    && |states| == |steps| + 1 && states[0] == Fresh(peers)
    && forall i :: 0 <= i < |steps| ==>
         && Possible(states[i], steps[i]) && Crowded(states[i], steps[i], slots, top)
         && states[i + 1] == Apply(states[i], steps[i])
  }

  // ── Conservation ──

  ghost predicate Conserved(s: State) {
    && (forall key :: 0 <= key < |s.counters| ==> s.counters[key] == |ChargedTo(s, key)|)
    && (forall r :: 0 <= r < |s.requests| && s.requests[r].phase.Charged? ==> s.requests[r].phase.key < |s.counters|)
    && (forall r :: 0 <= r < |s.requests| && s.requests[r].phase.Moving? ==> s.requests[r].phase.to < |s.counters|)
  }

  lemma OneElement(a: set<nat>, b: set<nat>, r: nat)
    requires a - {r} == b - {r}
    ensures |b| == |a| + (if r in b then 1 else 0) - (if r in a then 1 else 0)
  {
    assert |a - {r}| == |a| - if r in a then 1 else 0;
    assert |b - {r}| == |b| - if r in b then 1 else 0;
  }

  // Which requests a key is charged with after a step: one more, one fewer, or the same.
  lemma ChargedAfter(s: State, t: State, r: nat, key: nat)
    requires r < |t.requests| && |s.requests| <= |t.requests| <= |s.requests| + 1
    requires forall i :: 0 <= i < |t.requests| && i != r ==> i < |s.requests| && t.requests[i].phase == s.requests[i].phase
    ensures var was := r < |s.requests| && s.requests[r].phase == Charged(key);
      var now := t.requests[r].phase == Charged(key);
      |ChargedTo(t, key)| == |ChargedTo(s, key)| + (if now then 1 else 0) - (if was then 1 else 0)
  {
    forall i: nat | i != r
      ensures i in ChargedTo(t, key) <==> i in ChargedTo(s, key)
    {
    }
    OneElement(ChargedTo(s, key), ChargedTo(t, key), r);
  }

  // The request a step is about.
  function Subject(s: State, step: Step): nat {
    if step.Start? then |s.requests| else step.r
  }

  /** Every step keeps each counter equal to the number of requests charged to its peer. */
  lemma ConservedStep(s: State, step: Step)
    requires Conserved(s) && Possible(s, step)
    ensures Conserved(Apply(s, step))
  {
    var t := Apply(s, step);
    forall key | 0 <= key < |t.counters|
      ensures t.counters[key] == |ChargedTo(t, key)|
    {
      ChargedAfter(s, t, Subject(s, step), key);
    }
  }

  /** The value a decrement reads back is never negative: the reset to zero never happens. */
  lemma ClampNeverFires(s: State, step: Step)
    requires Conserved(s) && Possible(s, step) && (step.MoveOut? || step.Release?)
    ensures s.counters[s.requests[step.r].phase.key] - 1 >= 0
  {
    assert step.r in ChargedTo(s, s.requests[step.r].phase.key);
  }

  function Total(counters: seq<int>): int {
    if counters == [] then 0 else Total(counters[..|counters| - 1]) + counters[|counters| - 1]
  }

  ghost function ChargedBelow(s: State, n: nat): set<nat> {
    set r | 0 <= r < |s.requests| && s.requests[r].phase.Charged? && s.requests[r].phase.key < n
  }

  lemma {:induction false} TotalBelow(s: State, n: nat)
    requires Conserved(s) && n <= |s.counters|
    ensures Total(s.counters[..n]) == |ChargedBelow(s, n)|
  {
    if n == 0 {
      assert ChargedBelow(s, 0) == {};
    } else {
      TotalBelow(s, n - 1);
      assert s.counters[..n][..n - 1] == s.counters[..n - 1];
      assert ChargedBelow(s, n) == ChargedBelow(s, n - 1) + ChargedTo(s, n - 1);
      assert ChargedBelow(s, n - 1) !! ChargedTo(s, n - 1);
    }
  }

  /** The sum of all counters is the number of charged requests. */
  lemma TotalIsCharged(s: State)
    requires Conserved(s)
    ensures Total(s.counters) == |AllCharged(s)|
  {
    TotalBelow(s, |s.counters|);
    assert s.counters[..|s.counters|] == s.counters;
    assert ChargedBelow(s, |s.counters|) == AllCharged(s);
  }

  lemma RetriedCharged(s: State, r: nat, to: nat)
    requires Conserved(s) && Possible(s, MoveOut(r, to))
    ensures var out := Apply(s, MoveOut(r, to));
      && Possible(out, MoveIn(r)) && AllCharged(out) == AllCharged(s) - {r}
      && AllCharged(Apply(out, MoveIn(r))) == AllCharged(s)
  {
  }

  /** Both halves of a retry leave the total as it was, one less in between. */
  lemma RetryPreservesTotal(s: State, r: nat, to: nat)
    requires Conserved(s) && Possible(s, MoveOut(r, to))
    ensures var out := Apply(s, MoveOut(r, to));
      && Possible(out, MoveIn(r)) && Total(Apply(out, MoveIn(r)).counters) == Total(s.counters)
      && Total(out.counters) == Total(s.counters) - 1
  {
    RetriedCharged(s, r, to);
    var out := Apply(s, MoveOut(r, to));
    ConservedStep(s, MoveOut(r, to));
    ConservedStep(out, MoveIn(r));
    TotalIsCharged(s);
    TotalIsCharged(out);
    TotalIsCharged(Apply(out, MoveIn(r)));
    assert r in AllCharged(s);
  }

  /** When every request has finished, every counter is zero. */
  lemma {:induction false} IdleMeansZero(s: State)
    requires Conserved(s) && forall r :: 0 <= r < |s.requests| ==> s.requests[r].phase.Gone?
    ensures forall key :: 0 <= key < |s.counters| ==> s.counters[key] == 0
  {
    forall key | 0 <= key < |s.counters|
      ensures s.counters[key] == 0
    {
      assert ChargedTo(s, key) == {};
    }
  }

  // ── Overshoot ──

  // A retry of `a` overlapped the gate of `r`, so `r` may have read around it.
  predicate Slips(s: State, r: nat, a: nat)
    requires In(s, r) && In(s, a)
  {
    a in s.requests[r].afloat || r in s.requests[a].slipped
  }

  ghost function Missed(s: State, r: nat): set<nat>
    requires In(s, r)
  {
    set a | a in Ordinaries(s) && Slips(s, r, a)
  }

  // Of the ordinary requests in flight when `r` started, those still charged to a peer below `n` that
  // no retry has moved since.
  ghost function SeenBelow(s: State, r: nat, n: nat): set<nat>
    requires In(s, r)
  {
    set a | a in s.requests[r].before && a in Ordinaries(s) && !Slips(s, r, a)
      && s.requests[a].phase.Charged? && s.requests[a].phase.key < n
  }

  ghost function StillBefore(s: State, r: nat): set<nat>
    requires In(s, r)
  {
    set a | a in s.requests[r].before && a in Ordinaries(s) && !Slips(s, r, a)
  }

  function CeilLess1(top: real): int {
    -((-top).Floor) - 1
  }

  // What was charged, or in its window, when `r` started covers everything that started before it.
  ghost predicate Covered(s: State, r: nat)
    requires In(s, r)
  {
    && (forall a :: a in s.requests[r].before ==> a < r && !s.requests[a].InWindow())
    && (forall a :: a in Window(s) && a <= r ==> a in s.requests[r].beside)
    && (forall a :: a in Ordinaries(s) && a <= r ==> a in s.requests[r].before || a in s.requests[r].beside)
  }

  ghost predicate Gated(s: State, r: nat, top: real)
    requires In(s, r)
  {
    var q := s.requests[r];
    && (q.phase.Reading? ==>
          && q.phase.next <= |s.counters| && |SeenBelow(s, r, q.phase.next)| <= q.phase.sum
          && forall a :: a in StillBefore(s, r) ==> s.requests[a].phase.Charged?)
    && ((q.phase.Passed? || q.phase.Charged? || q.phase.Moving?) && !q.probe ==> |StillBefore(s, r)| <= CeilLess1(top))
  }

  ghost predicate Bounded(s: State, slots: nat, top: real) {
    forall r :: 0 <= r < |s.requests| ==> |s.requests[r].beside| <= slots && Covered(s, r) && Gated(s, r, top)
  }

  // A step adds at most its subject to the ordinary requests, and only by a first charge.
  lemma OrdinariesAfter(s: State, step: Step)
    requires Possible(s, step)
    ensures var t := Apply(s, step);
      && Ordinaries(t) <= Ordinaries(s) + {Subject(s, step)}
      && (Subject(s, step) in Ordinaries(t) && Subject(s, step) !in Ordinaries(s) ==> step.Charge?)
      && (forall a :: a in Ordinaries(t) && a != Subject(s, step) ==> t.requests[a] == s.requests[a])
  {
  }

  lemma {:induction false} CoveredStep(s: State, step: Step, r: nat)
    requires Possible(s, step) && In(s, r) && Covered(s, r)
    ensures Covered(Apply(s, step), r)
  {
    OrdinariesAfter(s, step);
    var t, i := Apply(s, step), Subject(s, step);
    assert forall a :: 0 <= a < |s.requests| && a != i ==> t.requests[a] == s.requests[a];
    assert i in Window(t) && i <= r ==> i in Window(s);
    assert i in Ordinaries(t) && i <= r ==> i in Window(s) || i in Ordinaries(s);
  }

  lemma SmallerSet(a: set<nat>, b: set<nat>)
    requires a <= b
    ensures |a| <= |b|
  {
    if a != b {
      assert |b - a| == |b| - |a|;
    }
  }

  // What a gate has counted only shrinks: nothing that was in flight at its start gets in again, and a
  // retry takes its request out.
  lemma SeenShrinks(s: State, step: Step, r: nat, n: nat)
    requires In(s, r) && Possible(s, step) && Covered(s, r)
    requires s.requests[r].phase.Reading? ==> forall a :: a in StillBefore(s, r) ==> s.requests[a].phase.Charged?
    ensures StillBefore(Apply(s, step), r) <= StillBefore(s, r)
    ensures s.requests[r].phase.Reading? ==> SeenBelow(Apply(s, step), r, n) <= SeenBelow(s, r, n)
    ensures s.requests[r].phase.Reading? ==>
      forall a :: a in StillBefore(Apply(s, step), r) ==> Apply(s, step).requests[a].phase.Charged?
  {
    OrdinariesAfter(s, step);
    var t, i := Apply(s, step), Subject(s, step);
    assert t.requests[r].before == s.requests[r].before && t.requests[r].afloat == s.requests[r].afloat;
    assert i in s.requests[r].before && i in Ordinaries(t) ==> i in Ordinaries(s);
    assert i in s.requests[r].before ==> s.requests[i].slipped <= t.requests[i].slipped;
  }

  // A counter read counts every ordinary request still charged to that peer.
  lemma ReadCountsAll(s: State, r: nat, n: nat)
    requires In(s, r) && Conserved(s) && n < |s.counters|
    ensures |SeenBelow(s, r, n + 1)| <= |SeenBelow(s, r, n)| + s.counters[n]
  {
    var more := SeenBelow(s, r, n + 1) - SeenBelow(s, r, n);
    SmallerSet(more, ChargedTo(s, n));
    assert SeenBelow(s, r, n + 1) == SeenBelow(s, r, n) + more;
  }

  lemma SeenAll(s: State, r: nat)
    requires In(s, r) && Conserved(s)
    requires forall a :: a in StillBefore(s, r) ==> s.requests[a].phase.Charged?
    ensures SeenBelow(s, r, |s.counters|) == StillBefore(s, r)
  {
  }

  lemma UnderLimit(sum: int, limit: real, top: real)
    requires (sum as real) < limit <= top
    ensures sum <= CeilLess1(top)
  {
  }

  lemma GatedStep(s: State, step: Step, r: nat, top: real)
    requires Possible(s, step) && In(s, r) && Conserved(s) && Covered(s, r) && Gated(s, r, top)
    requires step.Decide? ==> step.limit <= top
    ensures Gated(Apply(s, step), r, top)
  {
    var t, q := Apply(s, step), s.requests[r];
    SeenShrinks(s, step, r, 0);
    SmallerSet(StillBefore(t, r), StillBefore(s, r));
    if q.phase.Reading? {
      SeenShrinks(s, step, r, q.phase.next);
      SmallerSet(SeenBelow(t, r, q.phase.next), SeenBelow(s, r, q.phase.next));
      if step == Read(r) {
        SeenShrinks(s, step, r, q.phase.next + 1);
        SmallerSet(SeenBelow(t, r, q.phase.next + 1), SeenBelow(s, r, q.phase.next + 1));
        ReadCountsAll(s, r, q.phase.next);
      } else if step.Decide? && step.r == r {
        SeenAll(s, r);
        if (q.phase.sum as real) < step.limit {
          UnderLimit(q.phase.sum, step.limit, top);
        }
      }
    }
  }

  lemma StartsBounded(s: State, probe: bool, slots: nat, top: real)
    requires Bounded(s, slots, top) && |Window(s)| < slots
    ensures var t := Apply(s, Start(probe));
      |t.requests[|s.requests|].beside| <= slots && Covered(t, |s.requests|) && Gated(t, |s.requests|, top)
  {
    var t := Apply(s, Start(probe));
    OrdinariesAfter(s, Start(probe));
    assert SeenBelow(t, |s.requests|, 0) == {};
  }

  /** Every step keeps what each gate has counted in step with what it must have seen. */
  lemma BoundedStep(s: State, step: Step, slots: nat, top: real)
    requires Conserved(s) && Bounded(s, slots, top) && Possible(s, step) && Crowded(s, step, slots, top)
    ensures Bounded(Apply(s, step), slots, top)
  {
    var t := Apply(s, step);
    forall r | 0 <= r < |t.requests|
      ensures |t.requests[r].beside| <= slots && Covered(t, r) && Gated(t, r, top)
    {
      if r < |s.requests| {
        CoveredStep(s, step, r);
        GatedStep(s, step, r, top);
      } else {
        StartsBounded(s, step.probe, slots, top);
      }
    }
  }

  /** In every state of every run the counters are conserved and the gates bounded. */
  lemma {:induction false} RunInvariant(peers: nat, states: seq<State>, steps: seq<Step>, slots: nat, top: real, n: nat)
    requires IsRun(peers, states, steps, slots, top) && n < |states|
    ensures Conserved(states[n]) && Bounded(states[n], slots, top)
  {
    if n == 0 {
      forall key | 0 <= key < peers
        ensures ChargedTo(Fresh(peers), key) == {}
      {
      }
    } else {
      RunInvariant(peers, states, steps, slots, top, n - 1);
      ConservedStep(states[n - 1], steps[n - 1]);
      BoundedStep(states[n - 1], steps[n - 1], slots, top);
    }
  }

  lemma {:induction false} Latest(rs: set<nat>) returns (last: nat)
    requires rs != {}
    ensures last in rs && forall r :: r in rs ==> r <= last
    decreases rs
  {
    var r :| r in rs;
    if rs == {r} {
      last := r;
    } else {
      assert rs - {r} != {} by {
        assert rs == {r} + (rs - {r});
      }
      last := Latest(rs - {r});
      if last < r {
        last := r;
      }
      assert forall x :: x in rs ==> x == r || x in rs - {r};
    }
  }

  /**
   The overshoot bound, in every run: with every effective limit at most `top` and at most `slots`
   requests between the start of their gate and their increment, the requests in flight that are no
   probe number at most ceil(top) - 1 + slots, and those whose retry overlapped the gate of the last one.
   */
  lemma OvershootBound(peers: nat, states: seq<State>, steps: seq<Step>, slots: nat, top: real, n: nat)
    returns (last: nat)
    requires IsRun(peers, states, steps, slots, top) && n < |states| && Ordinaries(states[n]) != {}
    ensures last in Ordinaries(states[n]) && forall r :: r in Ordinaries(states[n]) ==> r <= last
    ensures |Ordinaries(states[n])| <= CeilLess1(top) + slots + |Missed(states[n], last)|
  {
    RunInvariant(peers, states, steps, slots, top, n);
    var s := states[n];
    last := Latest(Ordinaries(s));
    assert Covered(s, last) && Gated(s, last, top);
    var seen, beside, missed := StillBefore(s, last), s.requests[last].beside, Missed(s, last);
    SmallerSet(Ordinaries(s), seen + beside + missed);
  }

  // No retry begins while a gate reads, and no gate starts while a retry is under way.
  predicate Undisturbed(s: State, step: Step) {
    && (step.MoveOut? ==> forall r :: 0 <= r < |s.requests| ==> !s.requests[r].phase.Reading?)
    && (step.Start? ==> forall r :: 0 <= r < |s.requests| ==> !s.requests[r].phase.Moving?)
  }

  lemma {:induction false} NothingSlips(peers: nat, states: seq<State>, steps: seq<Step>, slots: nat, top: real, n: nat)
    requires IsRun(peers, states, steps, slots, top) && n < |states|
    requires forall i :: 0 <= i < |steps| ==> Undisturbed(states[i], steps[i])
    ensures forall r :: 0 <= r < |states[n].requests| ==>
      states[n].requests[r].afloat == {} && states[n].requests[r].slipped == {}
  {
    if n > 0 {
      NothingSlips(peers, states, steps, slots, top, n - 1);
      var s, step := states[n - 1], steps[n - 1];
      assert Undisturbed(s, step);
      assert step.MoveOut? ==> Readers(s) == {};
      assert step.Start? ==> Afloat(s) == {};
    }
  }

  /** When no retry overlaps a gate's reads, that is all requests in flight, however often they were retried. */
  lemma UndisturbedBound(peers: nat, states: seq<State>, steps: seq<Step>, slots: nat, top: real, n: nat)
    requires IsRun(peers, states, steps, slots, top) && n < |states|
    requires forall i :: 0 <= i < |steps| ==> Undisturbed(states[i], steps[i])
    ensures Ordinaries(states[n]) == {} || |Ordinaries(states[n])| <= CeilLess1(top) + slots
  {
    NothingSlips(peers, states, steps, slots, top, n);
    if Ordinaries(states[n]) != {} {
      var last := OvershootBound(peers, states, steps, slots, top, n);
      assert Missed(states[n], last) == {};
    }
  }

  lemma ProbesStay(s: State, step: Step)
    requires Possible(s, step)
    ensures var t := Apply(s, step);
      && (forall r :: 0 <= r < |s.requests| ==> t.requests[r].probe == s.requests[r].probe)
      && (forall r :: |s.requests| <= r < |t.requests| ==> step.Start? && t.requests[r].probe == step.probe)
  {
  }

  lemma {:induction false} NoProbes(peers: nat, states: seq<State>, steps: seq<Step>, slots: nat, top: real, n: nat)
    requires IsRun(peers, states, steps, slots, top) && n < |states|
    requires forall i :: 0 <= i < |steps| && steps[i].Start? ==> !steps[i].probe
    ensures forall r :: 0 <= r < |states[n].requests| ==> !states[n].requests[r].probe
  {
    if n > 0 {
      NoProbes(peers, states, steps, slots, top, n - 1);
      ProbesStay(states[n - 1], steps[n - 1]);
    }
  }

  /** Without probes the counters themselves obey that bound. */
  lemma CountersBounded(peers: nat, states: seq<State>, steps: seq<Step>, slots: nat, top: real, n: nat)
    requires IsRun(peers, states, steps, slots, top) && n < |states|
    requires forall i :: 0 <= i < |steps| ==> Undisturbed(states[i], steps[i])
    requires forall i :: 0 <= i < |steps| && steps[i].Start? ==> !steps[i].probe
    ensures Total(states[n].counters) == 0 || Total(states[n].counters) <= CeilLess1(top) + slots
  {
    RunInvariant(peers, states, steps, slots, top, n);
    NoProbes(peers, states, steps, slots, top, n);
    UndisturbedBound(peers, states, steps, slots, top, n);
    TotalIsCharged(states[n]);
    SmallerSet(AllCharged(states[n]), Ordinaries(states[n]));
    assert Ordinaries(states[n]) == {} ==> AllCharged(states[n]) == {};
  }

  lemma Extend(peers: nat, states: seq<State>, steps: seq<Step>, step: Step, slots: nat, top: real)
    returns (longer: seq<State>)
    requires IsRun(peers, states, steps, slots, top)
    requires Possible(states[|steps|], step) && Crowded(states[|steps|], step, slots, top)
    ensures longer == states + [Apply(states[|steps|], step)]
    ensures IsRun(peers, longer, steps + [step], slots, top)
  {
    longer := states + [Apply(states[|steps|], step)];
    var more := steps + [step];
    forall i | 0 <= i < |more|
      ensures Possible(longer[i], more[i]) && Crowded(longer[i], more[i], slots, top)
      ensures longer[i + 1] == Apply(longer[i], more[i])
    {
      if i < |steps| {
        assert longer[i] == states[i] && longer[i + 1] == states[i + 1] && more[i] == steps[i];
      }
    }
  }

  // One ordinary request has read peer 0 of two,
  lemma OneStarted() returns (states: seq<State>, steps: seq<Step>)
    ensures IsRun(2, states, steps, 1, 1.0)
    ensures states[|steps|] == State([0, 0], [Request(Reading(1, 0), false, {}, {0}, {}, {})])
  {
    var idle, r := Fresh(2), Request(Reading(0, 0), false, {}, {0}, {}, {});
    assert idle == State([0, 0], []) && Window(idle) == {} && Ordinaries(idle) == {} && Afloat(idle) == {};
    states, steps := [idle], [];
    states := Extend(2, states, steps, Start(false), 1, 1.0);
    steps := steps + [Start(false)];
    assert states[|steps|] == State([0, 0], [r]);
    states := Extend(2, states, steps, Read(0), 1, 1.0);
    steps := steps + [Read(0)];
  }

  // and is admitted to peer 1.
  lemma OneAdmitted() returns (states: seq<State>, steps: seq<Step>)
    ensures IsRun(2, states, steps, 1, 1.0)
    ensures states[|steps|] == State([0, 1], [Request(Charged(1), false, {}, {0}, {}, {})])
  {
    states, steps := OneStarted();
    var r := Request(Reading(1, 0), false, {}, {0}, {}, {});
    states := Extend(2, states, steps, Read(0), 1, 1.0);
    steps := steps + [Read(0)];
    assert states[|steps|] == State([0, 0], [r.(phase := Reading(2, 0))]);
    states := Extend(2, states, steps, Decide(0, 1.0), 1, 1.0);
    steps := steps + [Decide(0, 1.0)];
    assert states[|steps|] == State([0, 0], [r.(phase := Passed)]);
    states := Extend(2, states, steps, Charge(0, 1), 1, 1.0);
    steps := steps + [Charge(0, 1)];
  }

  // The second one reads peer 0.
  lemma HalfRead() returns (states: seq<State>, steps: seq<Step>)
    ensures IsRun(2, states, steps, 1, 1.0)
    ensures states[|steps|] == State(
      [0, 1], [Request(Charged(1), false, {}, {0}, {}, {}), Request(Reading(1, 0), false, {0}, {1}, {}, {})])
  {
    states, steps := OneAdmitted();
    var q, r := Request(Charged(1), false, {}, {0}, {}, {}), Request(Reading(0, 0), false, {0}, {1}, {}, {});
    var s := states[|steps|];
    assert Window(s) == {} && Ordinaries(s) == {0} && Afloat(s) == {};
    states := Extend(2, states, steps, Start(false), 1, 1.0);
    steps := steps + [Start(false)];
    assert states[|steps|] == State([0, 1], [q, r]);
    states := Extend(2, states, steps, Read(1), 1, 1.0);
    steps := steps + [Read(1)];
  }

  // Then the first is retried onto peer 0, and the second reads peer 1.
  lemma MovedBehindReader() returns (states: seq<State>, steps: seq<Step>)
    ensures IsRun(2, states, steps, 1, 1.0)
    ensures states[|steps|] == State(
      [1, 0], [Request(Charged(0), false, {}, {0}, {}, {1}), Request(Reading(2, 0), false, {0}, {1}, {}, {})])
  {
    states, steps := HalfRead();
    var q, r := Request(Charged(1), false, {}, {0}, {}, {}), Request(Reading(1, 0), false, {0}, {1}, {}, {});
    assert Readers(states[|steps|]) == {1};
    states := Extend(2, states, steps, MoveOut(0, 0), 1, 1.0);
    steps := steps + [MoveOut(0, 0)];
    assert states[|steps|] == State([0, 0], [q.(phase := Moving(0), slipped := {1}), r]);
    states := Extend(2, states, steps, MoveIn(0), 1, 1.0);
    steps := steps + [MoveIn(0)];
    assert states[|steps|] == State([1, 0], [q.(phase := Charged(0), slipped := {1}), r]);
    states := Extend(2, states, steps, Read(1), 1, 1.0);
    steps := steps + [Read(1)];
  }

  /**
   A retry that overlaps a gate escapes the bound: it can move a request behind the reader's back, from a
   counter not yet read to one already read. Limit 1 and one request in its window at a time bound the
   requests in flight by 1, yet two are, exactly the one missed too many.
   */
  lemma RetryEscapesBound() returns (states: seq<State>, steps: seq<Step>)
    ensures IsRun(2, states, steps, 1, 1.0) && CeilLess1(1.0) + 1 == 1
    ensures var s := states[|steps|];
      s.counters == [2, 0] && Ordinaries(s) == {0, 1} && Missed(s, 1) == {0}
    ensures exists i :: 0 <= i < |steps| && !Undisturbed(states[i], steps[i])
  {
    states, steps := MovedBehindReader();
    var q, r := Request(Charged(0), false, {}, {0}, {}, {1}), Request(Reading(2, 0), false, {0}, {1}, {}, {});
    states := Extend(2, states, steps, Decide(1, 1.0), 1, 1.0);
    steps := steps + [Decide(1, 1.0)];
    assert states[|steps|] == State([1, 0], [q, r.(phase := Passed)]);
    states := Extend(2, states, steps, Charge(1, 0), 1, 1.0);
    steps := steps + [Charge(1, 0)];
    assert 1 in states[|steps|].requests[0].slipped;
    if forall i :: 0 <= i < |steps| ==> Undisturbed(states[i], steps[i]) {
      NothingSlips(2, states, steps, 1, 1.0, |steps|);
      assert false;
    }
  }

  // ── Any number of requests behind one reader after the other ──

  // Every retry goes to the peer before, so no request comes back to a peer it has been on.
  ghost predicate Downhill(states: seq<State>, steps: seq<Step>) {
    |states| == |steps| + 1 &&
    forall i :: 0 <= i < |steps| && steps[i].MoveOut? ==>
      In(states[i], steps[i].r) && states[i].requests[steps[i].r].phase == Charged(steps[i].to + 1)
  }

  // A run with limit 1 and one request in its window at a time, all its retries downhill.
  ghost predicate Slide(peers: nat, states: seq<State>, steps: seq<Step>, s: State) {
    IsRun(peers, states, steps, 1, 1.0) && Downhill(states, steps) && states[|steps|] == s
  }

  lemma SlideOn(peers: nat, states: seq<State>, steps: seq<Step>, s: State, step: Step)
    returns (longer: seq<State>, more: seq<Step>, t: State)
    requires Slide(peers, states, steps, s) && Possible(s, step) && Crowded(s, step, 1, 1.0)
    requires step.MoveOut? ==> s.requests[step.r].phase == Charged(step.to + 1)
    ensures t == Apply(s, step) && Slide(peers, longer, more, t)
  {
    t := Apply(s, step);
    longer := Extend(peers, states, steps, step, 1, 1.0);
    more := steps + [step];
    assert forall i :: 0 <= i < |steps| ==> more[i] == steps[i] && longer[i] == states[i];
  }

  // `m` requests, the first `k` on peer x - 1 and the others on peer x, and one at its gate.
  ghost predicate Sliding(s: State, peers: nat, m: nat, x: nat, k: nat, gate: Phase) {
    && |s.counters| == peers && 0 < x < peers && k <= m && |s.requests| == m + 1
    && (forall r :: 0 <= r < m ==> s.requests[r].phase == Charged(if r < k then x - 1 else x))
    && (forall r :: 0 <= r <= m ==> !s.requests[r].probe) && s.requests[m].phase == gate
    && (forall j :: 0 <= j < peers ==> s.counters[j] == if j == x - 1 then k else if j == x then m - k else 0)
  }

  // `m` requests, all on peer x.
  ghost predicate Crowd(s: State, peers: nat, m: nat, x: nat) {
    && |s.counters| == peers && x < peers && |s.requests| == m
    && (forall r :: 0 <= r < m ==> s.requests[r].phase == Charged(x) && !s.requests[r].probe)
    && (forall j :: 0 <= j < peers ==> s.counters[j] == if j == x then m else 0)
  }

  // The reader passes peers on which nobody is.
  lemma {:induction false} SlideRead(peers: nat, states: seq<State>, steps: seq<Step>, s: State, m: nat, x: nat, k: nat,
                                     from: nat, count: nat)
    returns (longer: seq<State>, more: seq<Step>, t: State)
    requires Slide(peers, states, steps, s) && Sliding(s, peers, m, x, k, Reading(from, 0))
    requires from + count <= peers && forall j :: from <= j < from + count ==> s.counters[j] == 0
    ensures Slide(peers, longer, more, t) && Sliding(t, peers, m, x, k, Reading(from + count, 0))
    decreases count
  {
    longer, more, t := states, steps, s;
    if count > 0 {
      longer, more, t := SlideOn(peers, states, steps, s, Read(m));
      longer, more, t := SlideRead(peers, longer, more, t, m, x, k, from + 1, count - 1);
    }
  }

  // Behind its back all the others are retried, one after the other.
  lemma {:induction false} SlideMove(peers: nat, states: seq<State>, steps: seq<Step>, s: State, m: nat, x: nat, k: nat,
                                     gate: Phase)
    returns (longer: seq<State>, more: seq<Step>, t: State)
    requires Slide(peers, states, steps, s) && Sliding(s, peers, m, x, k, gate)
    ensures Slide(peers, longer, more, t) && Sliding(t, peers, m, x, m, gate)
    decreases m + 1 - k
  {
    longer, more, t := states, steps, s;
    if k < m {
      longer, more, t := SlideOn(peers, states, steps, s, MoveOut(k, x - 1));
      longer, more, t := SlideOn(peers, longer, more, t, MoveIn(k));
      longer, more, t := SlideMove(peers, longer, more, t, m, x, k + 1, gate);
    }
  }

  lemma SlideStart(peers: nat, states: seq<State>, steps: seq<Step>, s: State, m: nat, x: nat)
    returns (longer: seq<State>, more: seq<Step>, t: State)
    requires Slide(peers, states, steps, s) && Crowd(s, peers, m, x) && x > 0
    ensures Slide(peers, longer, more, t) && Sliding(t, peers, m, x, 0, Reading(0, 0))
  {
    assert Window(s) == {};
    longer, more, t := SlideOn(peers, states, steps, s, Start(false));
  }

  lemma SlideIn(peers: nat, states: seq<State>, steps: seq<Step>, s: State, m: nat, x: nat)
    returns (longer: seq<State>, more: seq<Step>, t: State)
    requires Slide(peers, states, steps, s) && Sliding(s, peers, m, x, m, Reading(peers, 0))
    ensures Slide(peers, longer, more, t) && Crowd(t, peers, m + 1, x - 1)
  {
    longer, more, t := SlideOn(peers, states, steps, s, Decide(m, 1.0));
    longer, more, t := SlideOn(peers, longer, more, t, Charge(m, x - 1));
  }

  // One more request is admitted past `m` that slide from peer x to the one before.
  lemma OneMorePasses(peers: nat, states: seq<State>, steps: seq<Step>, s: State, m: nat, x: nat)
    returns (longer: seq<State>, more: seq<Step>, t: State)
    requires Slide(peers, states, steps, s) && Crowd(s, peers, m, x) && x > 0
    ensures Slide(peers, longer, more, t) && Crowd(t, peers, m + 1, x - 1)
  {
    longer, more, t := SlideStart(peers, states, steps, s, m, x);
    longer, more, t := SlideRead(peers, longer, more, t, m, x, 0, 0, x);
    longer, more, t := SlideMove(peers, longer, more, t, m, x, 0, Reading(x, 0));
    longer, more, t := SlideRead(peers, longer, more, t, m, x, m, x, peers - x);
    longer, more, t := SlideIn(peers, longer, more, t, m, x);
  }

  lemma {:induction false} CrowdGathers(peers: nat, m: nat) returns (states: seq<State>, steps: seq<Step>, s: State)
    requires m < peers
    ensures Slide(peers, states, steps, s) && Crowd(s, peers, m, peers - 1 - m)
  {
    if m == 0 {
      states, steps, s := [Fresh(peers)], [], Fresh(peers);
    } else {
      states, steps, s := CrowdGathers(peers, m - 1);
      states, steps, s := OneMorePasses(peers, states, steps, s, m - 1, peers - m);
    }
  }

  /**
   The bound is escaped by any number: for every m, with limit 1 and one request in its window at a time,
   some run has m ordinary requests in flight, none of them ever retried onto a peer it has been on.
   */
  lemma RetriesEscapeAnyBound(m: nat) returns (states: seq<State>, steps: seq<Step>)
    ensures IsRun(m + 1, states, steps, 1, 1.0) && Downhill(states, steps)
    ensures |Ordinaries(states[|steps|])| == m && Total(states[|steps|].counters) == m
  {
    var s;
    states, steps, s := CrowdGathers(m + 1, m);
    RunInvariant(m + 1, states, steps, 1, 1.0, |steps|);
    TotalIsCharged(s);
    FirstOnes(Ordinaries(s), m);
    FirstOnes(AllCharged(s), m);
  }

  lemma {:induction false} FirstOnes(rs: set<nat>, m: nat)
    requires forall r: nat :: r in rs <==> r < m
    ensures |rs| == m
  {
    if m > 0 {
      FirstOnes(rs - {m - 1}, m - 1);
    } else {
      assert rs == {};
    }
  }

  // ── A gate that nobody disturbs ──

  // The state after a starting gate has read its first `n` counters and nobody else has stepped.
  function AfterReads(s: State, r: nat, n: nat): State
    requires In(s, r) && n <= |s.counters|
  {
    At(s, r, Reading(n, Total(s.counters[..n])))
  }

  // From `s` the steps, one after the other, lead to `t`.
  ghost predicate Leads(s: State, steps: seq<Step>, t: State)
    decreases |steps|
  {
    if steps == [] then s == t else Possible(s, steps[0]) && Leads(Apply(s, steps[0]), steps[1..], t)
  }

  function Reads(r: nat, n: nat): seq<Step> {
    seq(n, _ => Read(r))
  }

  lemma {:induction false} ReadsLead(s: State, r: nat, n: nat)
    requires In(s, r) && s.requests[r].phase.Reading? && n <= |s.counters|
    ensures Leads(AfterReads(s, r, n), Reads(r, |s.counters| - n), AfterReads(s, r, |s.counters|))
    decreases |s.counters| - n
  {
    var steps := Reads(r, |s.counters| - n);
    if n < |s.counters| {
      assert s.counters[..n + 1][..n] == s.counters[..n];
      assert Apply(AfterReads(s, r, n), Read(r)) == AfterReads(s, r, n + 1);
      ReadsLead(s, r, n + 1);
      assert steps[1..] == Reads(r, |s.counters| - (n + 1));
    }
  }

  // Having read all counters, the gate decides by how many requests are charged.
  lemma DecidesByTotal(s: State, r: nat, limit: real)
    requires Conserved(s) && In(s, r)
    ensures var done := AfterReads(s, r, |s.counters|);
      && Possible(done, Decide(r, limit))
      && (Apply(done, Decide(r, limit)).requests[r].phase == Passed
          <==> s.requests[r].probe || (|AllCharged(s)| as real) < limit)
  {
    TotalIsCharged(s);
    assert s.counters[..|s.counters|] == s.counters;
  }

  // A gate that has read nothing yet is where its reads begin.
  lemma ReadsBegin(s: State, r: nat)
    requires In(s, r) && s.requests[r].phase == Reading(0, 0)
    ensures AfterReads(s, r, 0) == s
  {
    assert s.requests[r := s.requests[r].(phase := Reading(0, 0))] == s.requests;
  }

  // ── Every request can finish ──

  // The requests that have not finished.
  ghost function Open(s: State): set<nat> {
    set r | 0 <= r < |s.requests| && !s.requests[r].phase.Gone?
  }

  lemma LeadsBefore(s: State, step: Step, steps: seq<Step>, t: State)
    requires Possible(s, step) && Leads(Apply(s, step), steps, t)
    ensures Leads(s, [step] + steps, t)
  {
    assert ([step] + steps)[1..] == steps;
  }

  // One request, wherever it is, can finish in at most two steps, and touches no other.
  lemma FinishOne(s: State, r: nat) returns (steps: seq<Step>, t: State)
    requires Conserved(s) && r in Open(s)
    ensures Leads(s, steps, t) && Conserved(t) && Open(t) == Open(s) - {r} && |t.counters| == |s.counters|
  {
    var phase := s.requests[r].phase;
    if phase.Moving? {
      var u := Apply(s, MoveIn(r));
      ConservedStep(s, MoveIn(r));
      ConservedStep(u, Release(r));
      t := Apply(u, Release(r));
      assert Leads(t, [], t);
      LeadsBefore(u, Release(r), [], t);
      LeadsBefore(s, MoveIn(r), [Release(r)], t);
      steps := [MoveIn(r)] + [Release(r)];
    } else {
      var step := if phase.Charged? then Release(r) else Abandon(r);
      ConservedStep(s, step);
      t := Apply(s, step);
      assert Leads(t, [], t);
      LeadsBefore(s, step, [], t);
      steps := [step];
    }
  }

  lemma {:induction false} LeadsOn(s: State, steps: seq<Step>, t: State, more: seq<Step>, u: State)
    requires Leads(s, steps, t) && Leads(t, more, u)
    ensures Leads(s, steps + more, u)
    decreases |steps|
  {
    hide Apply;
    hide Possible;
    if steps == [] {
      assert steps + more == more;
    } else {
      LeadsOn(Apply(s, steps[0]), steps[1..], t, more, u);
      assert (steps + more)[1..] == steps[1..] + more;
    }
  }

  /** From every reachable state all requests can finish, and then every counter is zero. */
  lemma {:induction false} Drains(s: State) returns (steps: seq<Step>, t: State)
    requires Conserved(s)
    ensures Leads(s, steps, t) && Open(t) == {} && |t.counters| == |s.counters|
    ensures forall key :: 0 <= key < |t.counters| ==> t.counters[key] == 0
    decreases Open(s)
  {
    if Open(s) == {} {
      steps, t := [], s;
      forall r | 0 <= r < |s.requests|
        ensures s.requests[r].phase.Gone?
      {
        assert r !in Open(s);
      }
      IdleMeansZero(s);
    } else {
      var r :| r in Open(s);
      var more, u;
      steps, u := FinishOne(s, r);
      more, t := Drains(u);
      LeadsOn(s, steps, u, more, t);
      steps := steps + more;
    }
  }

  /** A gate that turns a request away is done with it, and has charged nothing. */
  lemma RejectedIsGone(s: State, r: nat, limit: real)
    requires Possible(s, Decide(r, limit))
    ensures var t := Apply(s, Decide(r, limit));
      && (t.requests[r].phase.Gone? || t.requests[r].phase.Passed?) && t.counters == s.counters
      && (t.requests[r].phase.Gone? <==> (s.requests[r].phase.sum as real) >= limit && !s.requests[r].probe)
  {
  }

  /**
   Undisturbed, the gate is exact: its reads, one a peer and nothing in between, lead to a decision that
   lets the request pass if and only if it is a probe or fewer than the limit are in flight.
   */
  lemma QuietGateIsExact(s: State, r: nat, limit: real)
    requires Conserved(s) && In(s, r) && s.requests[r].phase == Reading(0, 0)
    ensures var done := AfterReads(s, r, |s.counters|);
      && Leads(s, Reads(r, |s.counters|), done) && Possible(done, Decide(r, limit))
      && (Apply(done, Decide(r, limit)).requests[r].phase == Passed
          <==> s.requests[r].probe || (|AllCharged(s)| as real) < limit)
  {
    hide Leads;
    hide Conserved;
    hide AfterReads;
    hide Apply;
    hide Reads;
    ReadsBegin(s, r);
    ReadsLead(s, r, 0);
    DecidesByTotal(s, r, limit);
  }
}
