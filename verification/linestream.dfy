/**
 Byte streams cut at newlines: the complete lines of a stretch of a file, by position, so that an append
 can add lines but never change one.
 */
module LineStream {
  import opened Wrappers

  // Just after the first newline at or after `at`; past the end when there is none.
  function NextEnd(s: string, at: nat): (e: nat)
    requires at <= |s|
    ensures at < e <= |s| + 1
    ensures e <= |s| ==> s[e - 1] == '\n'
    ensures forall i :: at <= i < e - 1 ==> s[i] != '\n'
    decreases |s| - at
  {
    if at == |s| then |s| + 1
    else if s[at] == '\n' then at + 1
    else NextEnd(s, at + 1)
  }

  predicate HasLine(s: string, at: nat)
    requires at <= |s|
  {
    NextEnd(s, at) <= |s|
  }

  /** The complete lines of `s` between two positions, each with its newline; a half line is not among them. */
  function Lines(s: string, from: nat, to: nat): seq<string>
    requires from <= to <= |s|
    decreases |s| - from
  {
    var e := NextEnd(s, from);
    if e > to then [] else [s[from..e]] + Lines(s, e, to)
  }

  function Joined(lines: seq<string>): string {
    if lines == [] then "" else lines[0] + Joined(lines[1..])
  }

  // Reading from `from`, a line can begin at `at`.
  predicate Cut(s: string, from: nat, at: nat) {
    from <= at <= |s| && (at == from || s[at - 1] == '\n')
  }

  /** Cut at a line end, the lines of the two stretches are the lines of the whole. */
  lemma {:induction false} LinesSplit(s: string, from: nat, at: nat, to: nat)
    requires Cut(s, from, at) && at <= to <= |s|
    ensures Lines(s, from, to) == Lines(s, from, at) + Lines(s, at, to)
    decreases |s| - from
  {
    if from < at {
      var e := NextEnd(s, from);
      LinesSplit(s, e, at, to);
      AppendAssociative([s[from..e]], Lines(s, e, at), Lines(s, at, to));
    }
  }

  /** Up to a line end, a stretch is exactly its complete lines. */
  lemma {:induction false} LinesCover(s: string, from: nat, at: nat)
    requires Cut(s, from, at)
    ensures Joined(Lines(s, from, at)) == s[from..at]
    decreases |s| - from
  {
    if from < at {
      var e := NextEnd(s, from);
      LinesCover(s, e, at);
      assert ([s[from..e]] + Lines(s, e, at))[1..] == Lines(s, e, at);
      assert s[from..at] == s[from..e] + s[e..at];
    }
  }

  lemma OneMoreLine(s: string, from: nat, at: nat)
    requires Cut(s, from, at) && HasLine(s, at)
    ensures Cut(s, from, NextEnd(s, at))
    ensures Lines(s, from, NextEnd(s, at)) == Lines(s, from, at) + [s[at..NextEnd(s, at)]]
  {
    var e := NextEnd(s, at);
    LinesSplit(s, from, at, e);
    assert Lines(s, at, e) == [s[at..e]] + Lines(s, e, e);
  }

  lemma NoMoreLines(s: string, from: nat, at: nat)
    requires Cut(s, from, at) && !HasLine(s, at)
    ensures Lines(s, from, |s|) == Lines(s, from, at)
  {
    LinesSplit(s, from, at, |s|);
  }

  lemma {:induction false} NextEndStays(s: string, t: string, at: nat)
    requires at <= |s| && HasLine(s, at)
    ensures NextEnd(s + t, at) == NextEnd(s, at)
    decreases |s| - at
  {
    if s[at] != '\n' {
      NextEndStays(s, t, at + 1);
    }
  }

  lemma {:induction false} NextEndLater(s: string, t: string, at: nat)
    requires at <= |s| && !HasLine(s, at)
    ensures NextEnd(s + t, at) > |s|
    decreases |s| - at
  {
    if at < |s| {
      NextEndLater(s, t, at + 1);
    }
  }

  /** An append changes no line that was complete. */
  lemma {:induction false} LinesStay(s: string, t: string, from: nat, to: nat)
    requires from <= to <= |s|
    ensures Lines(s + t, from, to) == Lines(s, from, to)
    decreases |s| - from
  {
    if HasLine(s, from) {
      NextEndStays(s, t, from);
      var e := NextEnd(s, from);
      if e <= to {
        LinesStay(s, t, e, to);
        assert (s + t)[from..e] == s[from..e];
      }
    } else {
      NextEndLater(s, t, from);
    }
  }
}
