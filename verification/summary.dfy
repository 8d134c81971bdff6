/**
 The summary view over bucket rows: per-peer totals, and the merge of the stream split back to one row
 a minute and peer.
 */
module Summary {
  import opened MinuteCounters

  // The row key without its stream; the source joins minute and peer into one string.
  function Merged(k: Key): Key {
    Key(k.minute, PeerKey(k.pk.peer, Unknown))
  }

  /** Everything the rows hold of one peer, peaks included, starting from an empty bucket. */
  ghost function PeerTotal(rows: seq<Line>, peer: string): Counters {
    if rows == [] then ZERO
    else
      var n := |rows| - 1;
      if rows[n].key.pk.peer == peer then Add(PeerTotal(rows[..n], peer), rows[n].c) else PeerTotal(rows[..n], peer)
  }

  ghost function Peers(rows: seq<Line>): set<string> {
    set l | l in rows :: l.key.pk.peer
  }

  /** The per-peer aggregate of a summary: one entry for each peer, its totals over all rows. */
  method PerPeer(rows: seq<Line>) returns (totals: map<string, Counters>)
    ensures totals.Keys == Peers(rows)
    ensures forall p :: p in totals ==> totals[p] == PeerTotal(rows, p)
  {
    totals := map[];
    for i := 0 to |rows|
      invariant totals.Keys == Peers(rows[..i])
      invariant forall p :: PeerTotal(rows[..i], p) == if p in totals then totals[p] else ZERO
    {
      assert rows[..i + 1][..i] == rows[..i] && rows[..i + 1] == rows[..i] + [rows[i]];
      var p := rows[i].key.pk.peer;
      totals := totals[p := Add(if p in totals then totals[p] else ZERO, rows[i].c)];
    }
    assert rows[..|rows|] == rows;
  }

  lemma AddCommutes(a: Counters, b: Counters, c: Counters)
    ensures Add(Add(a, b), c) == Add(Add(a, c), b)
    ensures Add(Add(a, b), c) == Add(a, Add(b, c))
  {
  }

  // A row that grows by some counters grows its peer's total by them, and no other peer's.
  lemma {:induction false} GrowRow(rows: seq<Line>, at: nat, d: Counters, peer: string)
    requires at < |rows|
    ensures PeerTotal(rows[at := Line(rows[at].key, Add(rows[at].c, d))], peer)
         == if rows[at].key.pk.peer == peer then Add(PeerTotal(rows, peer), d) else PeerTotal(rows, peer)
  {
    var n := |rows| - 1;
    var grown := rows[at := Line(rows[at].key, Add(rows[at].c, d))];
    if at == n {
      assert grown[..n] == rows[..n];
      AddCommutes(PeerTotal(rows[..n], peer), rows[n].c, d);
    } else {
      assert grown[..n] == rows[..n][at := Line(rows[at].key, Add(rows[at].c, d))];
      GrowRow(rows[..n], at, d, peer);
      AddCommutes(PeerTotal(rows[..n], peer), rows[n].c, d);
    }
  }

  // The merged keys in the order in which they first appear.
  function FirstSeen(rows: seq<Line>): (ks: seq<Key>)
    ensures forall i, j :: 0 <= i < j < |ks| ==> ks[i] != ks[j]
    ensures forall k :: k in ks <==> exists i :: 0 <= i < |rows| && Merged(rows[i].key) == k
  {
    if rows == [] then []
    else
      var n := |rows| - 1;
      var before := FirstSeen(rows[..n]);
      var k := Merged(rows[n].key);
      assert forall j :: 0 <= j < |rows| ==> Merged(rows[j].key) in before || Merged(rows[j].key) == k by {
        forall j | 0 <= j < n
          ensures Merged(rows[j].key) in before
        {
          assert rows[..n][j] == rows[j];
        }
      }
      if k in before then before else before + [k]
  }

  // All rows of one merged key added up, the first one as it is.
  ghost function GroupTotal(rows: seq<Line>, k: Key): Counters {
    if rows == [] then ZERO
    else
      var n := |rows| - 1;
      if Merged(rows[n].key) != k then GroupTotal(rows[..n], k)
      else if k in FirstSeen(rows[..n]) then Add(GroupTotal(rows[..n], k), rows[n].c)
      else rows[n].c
  }

  // One row a minute and peer, in order of first appearance, with the counters of its group.
  ghost predicate IsMerge(out: seq<Line>, rows: seq<Line>) {
    && |out| == |FirstSeen(rows)|
    && forall i :: 0 <= i < |out| ==> out[i] == Line(FirstSeen(rows)[i], GroupTotal(rows, FirstSeen(rows)[i]))
  }

  ghost predicate SamePeerTotals(a: seq<Line>, b: seq<Line>) {
    forall peer :: PeerTotal(a, peer) == PeerTotal(b, peer)
  }

  lemma NewRow(out: seq<Line>, seen: seq<Line>, l: Line)
    requires IsMerge(out, seen) && SamePeerTotals(out, seen) && Merged(l.key) !in FirstSeen(seen)
    ensures IsMerge(out + [Line(Merged(l.key), l.c)], seen + [l])
    ensures SamePeerTotals(out + [Line(Merged(l.key), l.c)], seen + [l])
  {
    assert (seen + [l])[..|seen|] == seen;
    assert (out + [Line(Merged(l.key), l.c)])[..|out|] == out;
  }

  lemma SameGroup(out: seq<Line>, seen: seq<Line>, l: Line, at: nat)
    requires IsMerge(out, seen) && SamePeerTotals(out, seen)
    requires at < |out| && out[at].key == Merged(l.key)
    ensures IsMerge(out[at := Line(out[at].key, Add(out[at].c, l.c))], seen + [l])
    ensures SamePeerTotals(out[at := Line(out[at].key, Add(out[at].c, l.c))], seen + [l])
  {
    assert (seen + [l])[..|seen|] == seen;
    forall peer
      ensures PeerTotal(out[at := Line(out[at].key, Add(out[at].c, l.c))], peer) == PeerTotal(seen + [l], peer)
    {
      GrowRow(out, at, l.c, peer);
      assert PeerTotal(out, peer) == PeerTotal(seen, peer);
    }
  }

  // A counter of one minute and peer, over all streams.
  ghost function MinuteTotal(rows: seq<Line>, minute: int, peer: string, f: Field): int {
    if rows == [] then 0
    else
      var n := |rows| - 1;
      MinuteTotal(rows[..n], minute, peer, f)
      + if rows[n].key.minute == minute && rows[n].key.pk.peer == peer then Get(rows[n].c, f) else 0
  }

  predicate OfMinute(l: Line, minute: int, peer: string) {
    l.key.minute == minute && l.key.pk.peer == peer
  }

  // The row has the totals of its minute and peer, and the peak among the rows of both.
  ghost predicate Totals(c: Counters, rows: seq<Line>, minute: int, peer: string) {
    && (forall f :: Get(c, f) == MinuteTotal(rows, minute, peer, f))
    && (forall l :: l in rows && OfMinute(l, minute, peer) ==> l.c.rtMaxMs <= c.rtMaxMs && l.c.frtMaxMs <= c.frtMaxMs)
    && (exists l :: l in rows && OfMinute(l, minute, peer) && l.c.rtMaxMs == c.rtMaxMs)
    && (exists l :: l in rows && OfMinute(l, minute, peer) && l.c.frtMaxMs == c.frtMaxMs)
  }

  lemma {:induction false} NoMinuteTotal(rows: seq<Line>, minute: int, peer: string, f: Field)
    requires forall l :: l in rows ==> !OfMinute(l, minute, peer)
    ensures MinuteTotal(rows, minute, peer, f) == 0
  {
    if rows != [] {
      assert rows[|rows| - 1] in rows;
      NoMinuteTotal(rows[..|rows| - 1], minute, peer, f);
    }
  }

  lemma {:induction false} GroupTotals(rows: seq<Line>, minute: int, peer: string)
    requires exists l :: l in rows && OfMinute(l, minute, peer)
    ensures Totals(GroupTotal(rows, Key(minute, PeerKey(peer, Unknown))), rows, minute, peer)
  {
    var n, k := |rows| - 1, Key(minute, PeerKey(peer, Unknown));
    var init, last := rows[..n], rows[n];
    assert rows == init + [last];
    if !OfMinute(last, minute, peer) {
      GroupTotals(init, minute, peer);
    } else if k in FirstSeen(init) {
      var i :| 0 <= i < |init| && Merged(init[i].key) == k;
      assert init[i] in init;
      GroupTotals(init, minute, peer);
      assert last in rows;
    } else {
      forall l | l in init
        ensures !OfMinute(l, minute, peer)
      {
        var i :| 0 <= i < |init| && init[i] == l;
        assert Merged(init[i].key) in FirstSeen(init);
      }
      forall f {
        NoMinuteTotal(init, minute, peer, f);
      }
      assert last in rows;
    }
  }

  /** Merging the stream split keeps every peer's totals and leaves one row a minute and peer. */
  method MergeBucketsByPeer(rows: seq<Line>) returns (out: seq<Line>)
    ensures IsMerge(out, rows) && SamePeerTotals(out, rows)
    ensures forall i, j :: 0 <= i < j < |out| ==>
        (out[i].key.minute, out[i].key.pk.peer) != (out[j].key.minute, out[j].key.pk.peer)
    ensures forall i :: 0 <= i < |out| ==> out[i].key.pk.stream == Unknown
    ensures forall o :: o in out ==> Totals(o.c, rows, o.key.minute, o.key.pk.peer)
    ensures forall l :: l in rows ==> exists o :: o in out && OfMinute(l, o.key.minute, o.key.pk.peer)
  {
    hide Totals;
    out := [];
    var at: map<Key, nat> := map[];
    for i := 0 to |rows|
      invariant IsMerge(out, rows[..i]) && SamePeerTotals(out, rows[..i])
      invariant forall k :: k in at ==> at[k] < |out| && out[at[k]].key == k
      invariant forall k :: k in at <==> k in FirstSeen(rows[..i])
    {
      assert rows[..i + 1] == rows[..i] + [rows[i]] && rows[..i + 1][..i] == rows[..i];
      var k := Merged(rows[i].key);
      if k !in at {
        NewRow(out, rows[..i], rows[i]);
        at := at[k := |out|];
        out := out + [Line(k, rows[i].c)];
      } else {
        SameGroup(out, rows[..i], rows[i], at[k]);
        out := out[at[k] := Line(k, Add(out[at[k]].c, rows[i].c))];
      }
    }
    assert rows[..|rows|] == rows;
    MergedRows(out, rows);
  }

  lemma MergedRows(out: seq<Line>, rows: seq<Line>)
    requires IsMerge(out, rows)
    ensures forall i :: 0 <= i < |out| ==> out[i].key.pk.stream == Unknown
    ensures forall o :: o in out ==> Totals(o.c, rows, o.key.minute, o.key.pk.peer)
    ensures forall l :: l in rows ==> exists o :: o in out && OfMinute(l, o.key.minute, o.key.pk.peer)
  {
    var ks := FirstSeen(rows);
    forall o | o in out
      ensures o.key.pk.stream == Unknown && Totals(o.c, rows, o.key.minute, o.key.pk.peer)
    {
      var i :| 0 <= i < |out| && out[i] == o;
      assert ks[i] in ks;
      var j :| 0 <= j < |rows| && Merged(rows[j].key) == ks[i];
      assert rows[j] in rows && OfMinute(rows[j], o.key.minute, o.key.pk.peer);
      GroupTotals(rows, o.key.minute, o.key.pk.peer);
    }
    forall l | l in rows
      ensures exists o :: o in out && OfMinute(l, o.key.minute, o.key.pk.peer)
    {
      var j :| 0 <= j < |rows| && rows[j] == l;
      assert Merged(rows[j].key) in ks;
      var i :| 0 <= i < |ks| && ks[i] == Merged(rows[j].key);
      assert out[i] in out;
    }
  }

  lemma {:induction false} TotalsWithout(rows: seq<Line>, i: nat, peer: string)
    requires i < |rows|
    ensures PeerTotal(rows, peer)
         == var rest := PeerTotal(rows[..i] + rows[i + 1..], peer);
            if rows[i].key.pk.peer == peer then Add(rest, rows[i].c) else rest
  {
    var n := |rows| - 1;
    if i == n {
      assert rows[..i] + rows[i + 1..] == rows[..n];
    } else {
      var rest := rows[..i] + rows[i + 1..];
      assert rest[..n - 1] == rows[..n][..i] + rows[..n][i + 1..];
      TotalsWithout(rows[..n], i, peer);
      AddCommutes(PeerTotal(rest[..n - 1], peer), rows[i].c, rows[n].c);
    }
  }

  /** The summary does not depend on the order in which maps hand out their rows. */
  lemma {:induction false} TotalsPermuted(a: seq<Line>, b: seq<Line>, peer: string)
    requires multiset(a) == multiset(b)
    ensures PeerTotal(a, peer) == PeerTotal(b, peer)
    decreases |a|
  {
    if a == [] {
      assert |multiset(b)| == 0;
    } else {
      var n := |a| - 1;
      assert a[n] in multiset(b);
      var i :| 0 <= i < |b| && b[i] == a[n];
      var rest := b[..i] + b[i + 1..];
      assert multiset(a[..n]) == multiset(rest) by {
        RemoveOne(b, i);
        RemoveOne(a, n);
        assert a[..n] + a[n + 1..] == a[..n];
      }
      TotalsWithout(b, i, peer);
      TotalsPermuted(a[..n], rest, peer);
    }
  }
}
