/**
 Retention: which finished files may be deleted and in which order, and one pass that deletes by age
 and then by disk usage.
 */
module Retention {
  import opened Wrappers

  // Dates are day numbers: ISO dates sort as text in the order of the days.
  datatype Kind = LegacyJsonl | JsonlGz | TarGz | DetailsJsonl | DetailsParquet

  datatype File = File(kind: Kind, date: int, size: nat)
  {
    predicate Details() {
      kind.DetailsJsonl? || kind.DetailsParquet?
    }

    // Paths of one directory and date differ in their suffix; ".jsonl" sorts before ".parquet" and
    // ".jsonl.gz" before ".tar.gz".
    function Suffix(): nat {
      if kind.JsonlGz? || kind.DetailsJsonl? then 0 else 1
    }

    /** Archives before details, the oldest date first, files of one date together. */
    predicate Before(f: File) {
      if Details() != f.Details() then f.Details()
      else date < f.date || (date == f.date && Suffix() < f.Suffix())
    }
  }

  predicate Has(files: seq<File>, kind: Kind, date: int) {
    exists f :: f in files && f.kind == kind && f.date == date
  }

  // What housekeeping may still be writing is left out.
  predicate Deletable(f: File, files: seq<File>, today: int, detailsCutoff: int, converts: bool) {
    match f.kind
    case LegacyJsonl => false
    case TarGz => true
    case JsonlGz => !Has(files, LegacyJsonl, f.date)
    case DetailsParquet => f.date != today && !Has(files, DetailsJsonl, f.date)
    case DetailsJsonl => f.date != today && !(converts && f.date >= detailsCutoff)
  }

  // A rotation turns the details jsonl of these dates into parquet, written in place.
  predicate Rotating(files: seq<File>, date: int, today: int, detailsCutoff: int, converts: bool) {
    Has(files, DetailsJsonl, date) && detailsCutoff <= date != today && converts
  }

  // Housekeeping gzips the archive of these dates in place.
  predicate Compressing(files: seq<File>, date: int) {
    Has(files, LegacyJsonl, date)
  }

  /**
   Nothing that is still written to, read to be converted, or possibly half written may be deleted, and
   nothing else is kept for good.
   */
  lemma SparesHousekeeping(f: File, files: seq<File>, today: int, detailsCutoff: int, converts: bool)
    requires f in files
    ensures f.Details() && (f.date == today || Rotating(files, f.date, today, detailsCutoff, converts)) ==>
      !Deletable(f, files, today, detailsCutoff, converts)
    ensures f.kind in {LegacyJsonl, JsonlGz} && Compressing(files, f.date) ==>
      !Deletable(f, files, today, detailsCutoff, converts)
    // A parquet goes after its jsonl, whoever deletes that.
    ensures f.kind.DetailsParquet? && Has(files, DetailsJsonl, f.date) ==>
      !Deletable(f, files, today, detailsCutoff, converts)
    ensures f.kind.DetailsJsonl? && f.date != today && !Rotating(files, f.date, today, detailsCutoff, converts) ==>
      Deletable(f, files, today, detailsCutoff, converts)
    ensures f.Details() && f.date != today && !Has(files, DetailsJsonl, f.date) ==>
      Deletable(f, files, today, detailsCutoff, converts)
    ensures !f.Details() && (f.kind.TarGz? || !Compressing(files, f.date)) ==>
      Deletable(f, files, today, detailsCutoff, converts)
  {
    assert Has(files, f.kind, f.date);
  }

  predicate InOrder(fs: seq<File>) {
    forall i, j :: 0 <= i < j < |fs| ==> fs[i].Before(fs[j])
  }

  /** In order: all archives first, then the details; in each the older dates first, a date's jsonl before the other. */
  lemma OrderIsByAge(fs: seq<File>, i: nat, j: nat)
    requires InOrder(fs) && i < j < |fs|
    ensures fs[i].Details() ==> fs[j].Details()
    ensures fs[i].Details() == fs[j].Details() ==> fs[i].date <= fs[j].date
    ensures fs[i].Details() == fs[j].Details() && fs[i].date == fs[j].date ==>
      !(fs[j].kind.JsonlGz? || fs[j].kind.DetailsJsonl?)
  {
    assert fs[i].Before(fs[j]);
  }

  // A directory holds one file of each kind and date.
  predicate OnePath(fs: seq<File>) {
    forall i, j :: 0 <= i < j < |fs| ==> (fs[i].kind, fs[i].date) != (fs[j].kind, fs[j].date)
  }

  lemma BeforeTransitive(f: File, g: File, h: File)
    requires f.Before(g) && (g.Before(h) || g == h)
    ensures f.Before(h)
  {
  }

  method InsertInOrder(fs: seq<File>, f: File) returns (r: seq<File>)
    requires InOrder(fs) && forall g :: g in fs ==> f.Before(g) || g.Before(f)
    ensures InOrder(r) && forall g :: g in r <==> g == f || g in fs
  {
    var at := 0;
    while at < |fs| && fs[at].Before(f)
      invariant 0 <= at <= |fs|
      invariant forall i :: 0 <= i < at ==> fs[i].Before(f)
    {
      at := at + 1;
    }
    forall i | at <= i < |fs|
      ensures f.Before(fs[i])
    {
      BeforeTransitive(f, fs[at], fs[i]);
    }
    hide File.Before;
    r := fs[..at] + [f] + fs[at..];
    assert fs == fs[..at] + fs[at..];
  }

  /** `pruneCandidates`: every deletable file once, in the order in which disk pressure takes them. */
  method PruneCandidates(files: seq<File>, today: int, detailsCutoff: int, converts: bool) returns (cands: seq<File>)
    requires OnePath(files)
    ensures InOrder(cands)
    ensures forall f :: f in cands <==> f in files && Deletable(f, files, today, detailsCutoff, converts)
  {
    cands := [];
    for i := 0 to |files|
      invariant InOrder(cands)
      invariant forall f :: f in cands <==> f in files[..i] && Deletable(f, files, today, detailsCutoff, converts)
    {
      assert files[..i + 1] == files[..i] + [files[i]];
      if Deletable(files[i], files, today, detailsCutoff, converts) {
        forall g | g in cands
          ensures files[i].Before(g) || g.Before(files[i])
        {
          assert g in files[..i];
        }
        cands := InsertInOrder(cands, files[i]);
      }
    }
    assert files[..|files|] == files;
  }

  function Sizes(fs: seq<File>): nat {
    if fs == [] then 0 else Sizes(fs[..|fs| - 1]) + fs[|fs| - 1].size
  }

  // What a pass over `fs` frees when the files in `stuck` cannot be removed.
  function Freed(fs: seq<File>, stuck: set<File>): nat {
    if fs == [] then 0
    else Freed(fs[..|fs| - 1], stuck) + if fs[|fs| - 1] in stuck then 0 else fs[|fs| - 1].size
  }

  function Gone(fs: seq<File>, stuck: set<File>): set<File> {
    set f | f in fs && f !in stuck
  }

  lemma {:induction false} FreedAll(fs: seq<File>, stuck: set<File>)
    ensures Freed(fs, stuck) <= Sizes(fs)
    ensures (forall f :: f in fs ==> f !in stuck) ==> Freed(fs, stuck) == Sizes(fs)
  {
    if fs != [] {
      FreedAll(fs[..|fs| - 1], stuck);
      assert fs[|fs| - 1] in fs;
    }
  }

  // The removals of a batch stop at the first point where enough is freed.
  predicate StopsAt(left: seq<File>, stuck: set<File>, need: nat, n: nat) {
    && n <= |left|
    && (n == |left| || Freed(left[..n], stuck) >= need)
    && (forall m :: 0 <= m < n ==> Freed(left[..m], stuck) < need)
  }

  const DISK_COOLDOWN := 600
  const WARN_EVERY := 3600

  // Usage is over the threshold once it is no longer below this.
  function Limit(total: nat, usagePct: nat): (l: nat)
    ensures l * 100 <= total * usagePct < (l + 1) * 100
  {
    total * usagePct / 100
  }

  predicate TooOld(f: File, archiveCutoff: int, detailsCutoff: int) {
    f.date < if f.Details() then detailsCutoff else archiveCutoff
  }

  function Young(cands: seq<File>, archiveCutoff: int, detailsCutoff: int): seq<File> {
    if cands == [] then []
    else
      var n := |cands| - 1;
      Young(cands[..n], archiveCutoff, detailsCutoff)
      + if TooOld(cands[n], archiveCutoff, detailsCutoff) then [] else [cands[n]]
  }

  function Old(cands: seq<File>, archiveCutoff: int, detailsCutoff: int): seq<File> {
    if cands == [] then []
    else
      var n := |cands| - 1;
      Old(cands[..n], archiveCutoff, detailsCutoff)
      + if TooOld(cands[n], archiveCutoff, detailsCutoff) then [cands[n]] else []
  }

  lemma {:induction false} YoungInOrder(cands: seq<File>, archiveCutoff: int, detailsCutoff: int)
    requires InOrder(cands)
    ensures InOrder(Young(cands, archiveCutoff, detailsCutoff))
    ensures forall f ::
        f in Young(cands, archiveCutoff, detailsCutoff) <==> f in cands && !TooOld(f, archiveCutoff, detailsCutoff)
    ensures forall f ::
        f in Old(cands, archiveCutoff, detailsCutoff) <==> f in cands && TooOld(f, archiveCutoff, detailsCutoff)
  {
    if cands != [] {
      var n := |cands| - 1;
      YoungInOrder(cands[..n], archiveCutoff, detailsCutoff);
      assert cands == cands[..n] + [cands[n]];
      forall f | f in cands[..n]
        ensures f.Before(cands[n])
      {
      }
    }
  }

  lemma AgedNone(cands: seq<File>, archiveCutoff: int, detailsCutoff: int, stuck: set<File>)
    requires cands == []
    ensures Young(cands, archiveCutoff, detailsCutoff) == []
    ensures Freed(Old(cands, archiveCutoff, detailsCutoff), stuck) == 0
    ensures Gone(Old(cands, archiveCutoff, detailsCutoff), stuck) == {}
  {
  }

  // One more candidate: it is left, or it goes and frees its size.
  lemma AgedOne(cands: seq<File>, c: File, archiveCutoff: int, detailsCutoff: int, stuck: set<File>)
    ensures var old' := Old(cands, archiveCutoff, detailsCutoff);
      var next := Old(cands + [c], archiveCutoff, detailsCutoff);
      if TooOld(c, archiveCutoff, detailsCutoff) then
        && Young(cands + [c], archiveCutoff, detailsCutoff) == Young(cands, archiveCutoff, detailsCutoff)
        && Freed(next, stuck) == Freed(old', stuck) + (if c in stuck then 0 else c.size)
        && Gone(next, stuck) == Gone(old', stuck) + (if c in stuck then {} else {c})
      else
        && Young(cands + [c], archiveCutoff, detailsCutoff) == Young(cands, archiveCutoff, detailsCutoff) + [c]
        && next == old'
  {
    var old' := Old(cands, archiveCutoff, detailsCutoff);
    assert (cands + [c])[..|cands|] == cands && (old' + [c])[..|old'|] == old';
    assert old' + [] == old' && Young(cands, archiveCutoff, detailsCutoff) + [] == Young(cands, archiveCutoff, detailsCutoff);
  }

  lemma {:induction false} FreedGrows(left: seq<File>, stuck: set<File>, m: nat, n: nat)
    requires m <= n <= |left|
    ensures Freed(left[..m], stuck) <= Freed(left[..n], stuck)
  {
    if m < n {
      assert left[..n][..n - 1] == left[..n - 1];
      FreedGrows(left, stuck, m, n - 1);
    }
  }

  /**
   When removals succeed, the batch is exactly the shortest prefix that brings usage strictly below the
   limit, and what it deletes comes before everything it leaves.
   */
  lemma ShortestSufficientPrefix(left: seq<File>, stuck: set<File>, used: nat, limit: nat, n: nat, m: nat)
    requires InOrder(left) && used >= limit && StopsAt(left, stuck, used - limit + 1, n) && m <= |left|
    requires (forall f :: f in left ==> f !in stuck) && Sizes(left) >= used - limit + 1
    ensures used - Sizes(left[..m]) < limit <==> m >= n
    ensures forall f, g :: f in left[..n] && g in left[n..] ==> f.Before(g)
  {
    FreedAll(left[..m], stuck);
    FreedAll(left, stuck);
    assert left[..|left|] == left;
    if m >= n {
      FreedGrows(left, stuck, n, m);
    }
  }

  /** Deleting nothing is right exactly when all candidates together would not suffice. */
  lemma NothingWouldDo(left: seq<File>, used: nat, limit: nat)
    requires used >= limit
    ensures Sizes(left) < used - limit + 1 <==> forall m: nat :: m <= |left| ==> used - Sizes(left[..m]) >= limit
  {
    if Sizes(left) < used - limit + 1 {
      forall m: nat | m <= |left|
        ensures used - Sizes(left[..m]) >= limit
      {
        FreedAll(left[..m], {});
        FreedAll(left, {});
        FreedGrows(left, {}, m, |left|);
        assert left[..|left|] == left;
      }
    } else {
      assert left[..|left|] == left;
      assert used - Sizes(left[..|left|]) < limit;
    }
  }

  class Pruner {
    var files: set<File>             // finished files on the volume
    var lastBatch: Option<int>       // when the last disk batch ended
    var lastWarn: Option<int>
    ghost var batches: seq<(int, int)>   // when each disk batch started and ended

    // Every batch ended no earlier than it started, and started at least the cooldown after the one before.
    ghost predicate Valid()
      reads this
    {
      && (forall i :: 0 < i < |batches| ==> batches[i].0 >= batches[i - 1].1 + DISK_COOLDOWN)
      && (forall i :: 0 <= i < |batches| ==> batches[i].0 <= batches[i].1)
      && (batches == [] <==> lastBatch.None?)
      && (batches != [] ==> lastBatch == Some(batches[|batches| - 1].1))
    }

    constructor (files: set<File>)
      ensures Valid() && this.files == files && batches == [] && lastWarn == None
    {
      this.files, lastBatch, lastWarn, batches := files, None, None, [];
    }

    /** The age step: removes what is too old, keeps the rest in order. */
    method RemoveOld(cands: seq<File>, archiveCutoff: int, detailsCutoff: int, stuck: set<File>)
      returns (left: seq<File>, freed: nat)
      modifies this`files
      ensures left == Young(cands, archiveCutoff, detailsCutoff)
      ensures freed == Freed(Old(cands, archiveCutoff, detailsCutoff), stuck)
      ensures files == old(files) - Gone(Old(cands, archiveCutoff, detailsCutoff), stuck)
    {
      hide Young;
      hide Old;
      hide Freed;
      hide Gone;
      left, freed := [], 0;
      AgedNone(cands[..0], archiveCutoff, detailsCutoff, stuck);
      for i := 0 to |cands|
        invariant left == Young(cands[..i], archiveCutoff, detailsCutoff)
        invariant freed == Freed(Old(cands[..i], archiveCutoff, detailsCutoff), stuck)
        invariant files == old(files) - Gone(Old(cands[..i], archiveCutoff, detailsCutoff), stuck)
      {
        var c := cands[i];
        assert cands[..i + 1] == cands[..i] + [c];
        AgedOne(cands[..i], c, archiveCutoff, detailsCutoff, stuck);
        if TooOld(c, archiveCutoff, detailsCutoff) {
          if c !in stuck {
            files := files - {c};
            freed := freed + c.size;
          }
        } else {
          left := left + [c];
        }
      }
      assert cands[..|cands|] == cands;
    }

    /** The disk step's removals, in order, until enough is freed. */
    method RemoveBatch(left: seq<File>, stuck: set<File>, need: nat) returns (n: nat)
      modifies this`files
      ensures StopsAt(left, stuck, need, n)
      ensures files == old(files) - Gone(left[..n], stuck)
    {
      n := 0;
      var freed := 0;
      while n < |left| && freed < need
        invariant n <= |left| && freed == Freed(left[..n], stuck)
        invariant forall m :: 0 <= m < n ==> Freed(left[..m], stuck) < need
        invariant files == old(files) - Gone(left[..n], stuck)
      {
        assert left[..n + 1][..n] == left[..n];
        if left[n] !in stuck {
          files := files - {left[n]};
          freed := freed + left[n].size;
        }
        n := n + 1;
      }
    }

    // Whether the disk step acts, given the usage it sees after the age step.
    predicate Acts(left: seq<File>, used: nat, total: nat, usagePct: int, now: int)
      reads this`lastBatch
    {
      && usagePct > 0 && total > 0 && used >= Limit(total, usagePct)
      && (lastBatch.None? || now - lastBatch.value >= DISK_COOLDOWN)
      && Sizes(left) >= used - Limit(total, usagePct) + 1
    }

    // Whether it only warns: it should act, but could not get below, and has not warned of late.
    predicate Warns(left: seq<File>, used: nat, total: nat, usagePct: int, now: int)
      reads this`lastBatch, this`lastWarn
    {
      && usagePct > 0 && total > 0 && used >= Limit(total, usagePct)
      && (lastBatch.Some? ==> now - lastBatch.value >= DISK_COOLDOWN)
      && Sizes(left) < used - Limit(total, usagePct) + 1
      && (lastWarn.Some? ==> now - lastWarn.value >= WARN_EVERY)
    }

    lemma ActsExactly(left: seq<File>, used: nat, total: nat, usagePct: nat, now: int)
      ensures Acts(left, used, total, usagePct, now) <==>
        && usagePct > 0 && total > 0 && (used + 1) * 100 > total * usagePct
        && (lastBatch.Some? ==> now - lastBatch.value >= DISK_COOLDOWN)
        && used - Sizes(left) < Limit(total, usagePct)
    {
    }

    // What a pass deletes: what is too old, and the first `n` of what is left.
    predicate Chosen(f: File, cands: seq<File>, left: seq<File>, n: nat, archiveCutoff: int, detailsCutoff: int,
                     stuck: set<File>)
      requires n <= |left|
    {
      f in cands && f !in stuck && (TooOld(f, archiveCutoff, detailsCutoff) || f in left[..n])
    }

    /** The disk step: nothing, or the shortest sufficient prefix of what the age step left. */
    method RelieveDisk(left: seq<File>, used: nat, total: nat, usagePct: int, stuck: set<File>, now: int, end: int)
      returns (n: nat)
      requires Valid() && now <= end
      modifies this
      ensures Valid() && n <= |left|
      ensures files == old(files) - Gone(left[..n], stuck)
      ensures var acts := old(Acts(left, used, total, usagePct, now));
        && (acts ==> StopsAt(left, stuck, used - Limit(total, usagePct) + 1, n) && batches == old(batches) + [(now, end)])
        && (!acts ==> n == 0 && batches == old(batches))
      ensures lastWarn == if old(Warns(left, used, total, usagePct, now)) then Some(now) else old(lastWarn)
    {
      n := 0;
      if usagePct <= 0 || total == 0 || used < Limit(total, usagePct) {
        return;
      }
      if lastBatch.Some? && now - lastBatch.value < DISK_COOLDOWN {
        return;
      }
      var need := used - Limit(total, usagePct) + 1;
      var avail := SumSizes(left);
      if avail < need {
        if lastWarn.None? || now - lastWarn.value >= WARN_EVERY {
          lastWarn := Some(now);
        }
        return;
      }
      n := RemoveBatch(left, stuck, need);
      lastBatch, batches := Some(end), batches + [(now, end)];
    }

    /**
     One retention pass over the listing `found`: everything too old goes; then either nothing, or the
     shortest sufficient prefix of what is left. Space freed by age counts as freed already.
     */
    method Prune(found: seq<File>, today: int, archiveCutoff: int, detailsCutoff: int, converts: bool,
                 statUsed: nat, total: nat, usagePct: int, stuck: set<File>, now: int, end: int)
      returns (cands: seq<File>, left: seq<File>, used: nat, n: nat)
      requires Valid() && OnePath(found) && now <= end
      modifies this
      ensures Valid() && InOrder(cands) && InOrder(left) && n <= |left|
      ensures forall f :: f in cands <==> f in found && Deletable(f, found, today, detailsCutoff, converts)
      ensures forall f :: f in left <==> f in cands && !TooOld(f, archiveCutoff, detailsCutoff)
      ensures forall f :: f in files <==>
        f in old(files) && !Chosen(f, cands, left, n, archiveCutoff, detailsCutoff, stuck)
      // Archives go by their cutoff, details by theirs; what is not too old only from the front of the order.
      ensures forall f :: f in cands && f !in stuck && f.date < (if f.Details() then detailsCutoff else archiveCutoff) ==>
        f !in files
      ensures forall f :: f in old(files) && f !in files ==>
        f in left[..n] || f.date < (if f.Details() then detailsCutoff else archiveCutoff)
      ensures var freed := Freed(Old(cands, archiveCutoff, detailsCutoff), stuck);
        used == if freed >= statUsed then 0 else statUsed - freed
      ensures var acts := old(Acts(left, used, total, usagePct, now));
        && (acts ==> StopsAt(left, stuck, used - Limit(total, usagePct) + 1, n) && batches == old(batches) + [(now, end)])
        && (!acts ==> n == 0 && batches == old(batches))
      // The disk step acts exactly at or over the threshold, out of cooldown, and if it can get below.
      ensures batches != old(batches) <==>
        && usagePct > 0 && total > 0 && (used + 1) * 100 > total * usagePct
        && (old(lastBatch).Some? ==> now - old(lastBatch).value >= DISK_COOLDOWN)
        && used - Sizes(left) < Limit(total, usagePct)
      ensures lastWarn == if old(Warns(left, used, total, usagePct, now)) then Some(now) else old(lastWarn)
    {
      cands := PruneCandidates(found, today, detailsCutoff, converts);
      YoungInOrder(cands, archiveCutoff, detailsCutoff);
      var ageFreed: nat;
      left, ageFreed := RemoveOld(cands, archiveCutoff, detailsCutoff, stuck);
      used := if ageFreed >= statUsed then 0 else statUsed - ageFreed;
      if usagePct > 0 {
        ActsExactly(left, used, total, usagePct, now);
      }
      hide Limit;
      n := RelieveDisk(left, used, total, usagePct, stuck, now, end);
    }
  }

  method SumSizes(fs: seq<File>) returns (total: nat)
    ensures total == Sizes(fs)
  {
    total := 0;
    for i := 0 to |fs|
      invariant total == Sizes(fs[..i])
    {
      assert fs[..i + 1][..i] == fs[..i];
      total := total + fs[i].size;
    }
    assert fs[..|fs|] == fs;
  }

  /** Any two batches of a pruner, not just neighbours, are at least the cooldown apart. */
  lemma {:induction false} BatchesApart(p: Pruner, i: nat, j: nat)
    requires p.Valid() && i < j < |p.batches|
    ensures p.batches[j].0 - p.batches[i].1 >= DISK_COOLDOWN
  {
    if i + 1 < j {
      BatchesApart(p, i, j - 1);
    }
  }
}
