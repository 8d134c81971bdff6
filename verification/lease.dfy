/**
 The timer lease: which worker runs a route's background loops. One dictionary key with a lifetime,
 renewed by its holder and watched by the others. Times are seconds of one shared clock.
 */
module Lease {
  import opened Wrappers

  const TTL := 60
  const RENEW_SEC := 20
  const RETRY_SEC := 30

  // The stored value is the time of the last renewal.
  datatype Record = Record(stamp: int, expires: int)

  // What a worker does next, and when: try to take the lock, renew it, or check on it. A worker that has
  // found the lock free or stale tries at once.
  datatype Worker =
    | Idle
    | Trying(due: int)
    | Holding(renewed: int)
    | Waiting(due: int)
    | Dead
  {
    predicate Alive() {
      !Idle? && !Dead?
    }

    function Due(): int {
      match this
      case Trying(due) => due
      case Holding(renewed) => renewed + RENEW_SEC
      case Waiting(due) => due
      case _ => 0
    }
  }

  datatype State = State(now: int, lock: Option<Record>, workers: seq<Worker>)
  {
    // A key is there up to, not including, the moment it expires.
    predicate Taken() {
      lock.Some? && now < lock.value.expires
    }
  }

  datatype Step =
    | Register(w: nat)
    | TryLock(w: nat)
    | Renew(w: nat)
    | Check(w: nat)
    | Die(w: nat)
    | Advance(to: int)

  predicate Possible(s: State, step: Step) {
    if step.Advance? then step.to >= s.now
    else
      step.w < |s.workers| &&
      match step
      case Register(w) => s.workers[w].Idle?
      case TryLock(w) => s.workers[w].Trying? && s.workers[w].due <= s.now
      case Renew(w) => s.workers[w].Holding? && s.workers[w].Due() <= s.now
      case Check(w) => s.workers[w].Waiting? && s.workers[w].due <= s.now
      case Die(w) => s.workers[w].Alive()
      case Advance(_) => true
  }

  function Apply(s: State, step: Step): State
    requires Possible(s, step)
  {
    match step
    case Register(w) => s.(workers := s.workers[w := Trying(s.now)])
    case TryLock(w) =>
      if s.Taken() then s.(workers := s.workers[w := Waiting(s.now + RETRY_SEC)])
      else s.(lock := Some(Record(s.now, s.now + TTL)), workers := s.workers[w := Holding(s.now)])
    case Renew(w) => s.(lock := Some(Record(s.now, s.now + TTL)), workers := s.workers[w := Holding(s.now)])
    case Check(w) =>
      var stale := !s.Taken() || s.now - s.lock.value.stamp > RENEW_SEC * 2;
      s.(workers := s.workers[w := if stale then Trying(s.now) else Waiting(s.now + RETRY_SEC)])
    case Die(w) => s.(workers := s.workers[w := Dead])
    case Advance(to) => s.(now := to)
  }

  // No live holder lets its lease run out.
  predicate KeepsRenewing(s: State, step: Step) {
    step.Advance? ==> forall w :: 0 <= w < |s.workers| && s.workers[w].Holding? ==> step.to < s.workers[w].renewed + TTL
  }

  // No timer of a live worker fires late.
  predicate OnTime(s: State, step: Step) {
    step.Advance? ==> forall w :: 0 <= w < |s.workers| && s.workers[w].Alive() ==> step.to <= s.workers[w].Due()
  }

  ghost predicate IsRun(states: seq<State>, steps: seq<Step>) {
    && |states| == |steps| + 1 && states[0].lock == None
    && (forall w :: 0 <= w < |states[0].workers| ==> states[0].workers[w].Idle?)
    && forall i :: 0 <= i < |steps| ==> Possible(states[i], steps[i]) && states[i + 1] == Apply(states[i], steps[i])
  }

  predicate OneHolder(s: State) {
    forall v, w :: 0 <= v < w < |s.workers| ==> !(s.workers[v].Holding? && s.workers[w].Holding?)
  }

  // The lock is the holder's: it says when the holder renewed and has not run out.
  predicate Owned(s: State) {
    forall w :: 0 <= w < |s.workers| && s.workers[w].Holding? ==>
      s.lock == Some(Record(s.workers[w].renewed, s.workers[w].renewed + TTL)) && s.Taken()
  }

  lemma OneHolderStep(s: State, step: Step)
    requires OneHolder(s) && Owned(s) && Possible(s, step) && KeepsRenewing(s, step)
    ensures OneHolder(Apply(s, step)) && Owned(Apply(s, step))
  {
  }

  /** If every live holder renews within the lifetime of the key, no two workers hold the lease. */
  lemma {:induction false} AtMostOneHolder(states: seq<State>, steps: seq<Step>, n: nat)
    requires IsRun(states, steps) && n < |states|
    requires forall i :: 0 <= i < |steps| ==> KeepsRenewing(states[i], steps[i])
    ensures OneHolder(states[n]) && Owned(states[n])
  {
    if n > 0 {
      AtMostOneHolder(states, steps, n - 1);
      OneHolderStep(states[n - 1], steps[n - 1]);
    }
  }

  // A worker that waits looks again before the current lease has been over for a retry period, and one
  // that tries has just looked.
  predicate Watched(s: State) {
    && (forall w :: 0 <= w < |s.workers| && s.workers[w].Waiting? ==>
          s.lock.Some? && s.now <= s.workers[w].due && s.workers[w].due < s.lock.value.expires + RETRY_SEC)
    && (forall w :: 0 <= w < |s.workers| && s.workers[w].Trying? ==> s.workers[w].due == s.now)
    && (forall w :: 0 <= w < |s.workers| && s.workers[w].Holding? ==>
          s.lock.Some? && s.now <= s.workers[w].renewed + RENEW_SEC && s.workers[w].renewed <= s.lock.value.stamp)
    && (s.lock.Some? ==> s.lock.value.expires == s.lock.value.stamp + TTL && s.lock.value.stamp <= s.now)
  }

  lemma WatchedStep(s: State, step: Step)
    requires Watched(s) && Possible(s, step) && OnTime(s, step)
    ensures Watched(Apply(s, step))
  {
  }

  lemma {:induction false} AlwaysWatched(states: seq<State>, steps: seq<Step>, n: nat)
    requires IsRun(states, steps) && n < |states|
    requires forall i :: 0 <= i < |steps| ==> OnTime(states[i], steps[i])
    ensures Watched(states[n])
  {
    if n > 0 {
      AlwaysWatched(states, steps, n - 1);
      WatchedStep(states[n - 1], steps[n - 1]);
    }
  }

  // Timers on time are enough for the premise of `AtMostOneHolder`.
  lemma OnTimeKeepsRenewing(s: State, step: Step)
    requires OnTime(s, step)
    ensures KeepsRenewing(s, step)
  {
  }

  /**
   The lease is taken only when it is free or over, and renewed only by its holder; nothing else touches
   it, not even the death of its holder. A waiting worker tries again exactly when the lease is free, over,
   or was last renewed more than two renewals ago.
   */
  lemma LeaseChangesExactly(s: State, step: Step)
    requires Possible(s, step)
    ensures var t := Apply(s, step);
      && (t.lock != s.lock ==> t.lock == Some(Record(s.now, s.now + TTL)) && (step.Renew? || step.TryLock?))
      && (step.Renew? ==> s.workers[step.w].Holding? && t.lock == Some(Record(s.now, s.now + TTL)))
      && (step.TryLock? && s.lock.Some? && s.now < s.lock.value.expires ==>
            t.lock == s.lock && t.workers[step.w] == Waiting(s.now + 30))
      && (step.TryLock? && (s.lock.None? || s.now >= s.lock.value.expires) ==> t.workers[step.w] == Holding(s.now))
      && (step.Check? ==>
            (t.workers[step.w] == Trying(s.now)
             <==> s.lock.None? || s.now >= s.lock.value.expires || s.now - s.lock.value.stamp > 40)
            && (t.workers[step.w] == Trying(s.now) || t.workers[step.w] == Waiting(s.now + 30)))
  {
  }

  /** A renewal is due 20 seconds after the last one, a look when it was set, and a try at once. */
  lemma TimersFireExactly(s: State, w: nat)
    requires w < |s.workers|
    ensures Possible(s, Renew(w)) <==> s.workers[w].Holding? && s.now >= s.workers[w].renewed + 20
    ensures Possible(s, Check(w)) <==> s.workers[w].Waiting? && s.now >= s.workers[w].due
    ensures Possible(s, Register(w)) ==> Possible(Apply(s, Register(w)), TryLock(w))
  {
  }

  // A waiting worker that looks once the lease is over takes it at once, unless another one did.
  lemma ExpiredIsTaken(s: State, w: nat)
    requires Possible(s, Check(w)) && !s.Taken()
    ensures Possible(Apply(s, Check(w)), TryLock(w))
    ensures Apply(Apply(s, Check(w)), TryLock(w)).workers[w] == Holding(s.now)
    ensures Apply(Apply(s, Check(w)), TryLock(w)).lock == Some(Record(s.now, s.now + TTL))
  {
  }

  /**
   Timers on time: nobody shares the lease, and as long as some worker waits or holds, the last renewal
   is less than TTL + RETRY_SEC old. So after a holder dies, a waiting worker has taken over within 90
   seconds of the last renewal: its next look is not later, and if the lease is over then it holds it.
   */
  lemma TakeoverInTime(states: seq<State>, steps: seq<Step>, n: nat, w: nat)
    requires IsRun(states, steps) && n < |states| && w < |states[n].workers|
    requires forall i :: 0 <= i < |steps| ==> OnTime(states[i], steps[i])
    requires states[n].workers[w].Waiting? || states[n].workers[w].Holding?
    ensures OneHolder(states[n])
    ensures states[n].lock.Some? && states[n].now < states[n].lock.value.stamp + TTL + RETRY_SEC
    ensures states[n].workers[w].Waiting? ==> states[n].workers[w].due < states[n].lock.value.stamp + TTL + RETRY_SEC
    ensures Possible(states[n], Check(w)) && !states[n].Taken() ==>
      var checked := Apply(states[n], Check(w));
      Possible(checked, TryLock(w)) && Apply(checked, TryLock(w)).workers[w] == Holding(states[n].now)
  {
    AlwaysWatched(states, steps, n);
    forall i | 0 <= i < |steps|
      ensures KeepsRenewing(states[i], steps[i])
    {
      OnTimeKeepsRenewing(states[i], steps[i]);
    }
    AtMostOneHolder(states, steps, n);
    if Possible(states[n], Check(w)) && !states[n].Taken() {
      ExpiredIsTaken(states[n], w);
    }
  }

  /** A holder that sleeps through its lease and lives on shares it with its successor. */
  lemma LateHolderShares() returns (states: seq<State>, steps: seq<Step>)
    ensures IsRun(states, steps) && !OneHolder(states[|steps|])
  {
    var s0 := State(0, None, [Idle, Idle]);
    var s1 := Apply(s0, Register(0));
    var s2 := Apply(s1, TryLock(0));
    var s3 := Apply(s2, Advance(TTL));
    var s4 := Apply(s3, Register(1));
    var s5 := Apply(s4, TryLock(1));
    states := [s0, s1, s2, s3, s4, s5];
    steps := [Register(0), TryLock(0), Advance(TTL), Register(1), TryLock(1)];
    assert s5.workers[0].Holding? && s5.workers[1].Holding?;
  }
}
