/**
 Keyset pagination of the metrics endpoint and the recovery client that walks it. The SQL engine is
 taken as a filter over rows it keeps in (end time, request id) order.
 */
module Pagination {
  import opened Wrappers

  // Request ids compare as text; here by rank, 0 for a row that has none.
  datatype Key = Key(ts: int, id: nat)
  {
    predicate Less(k: Key) {
      ts < k.ts || (ts == k.ts && id < k.id)
    }
  }

  datatype Row = Row(key: Key, data: string)

  // The lower bound of a query: a start time, inclusive, or a cursor, exclusive.
  datatype Lower = Start(ts: int) | Cursor(key: Key)
  {
    predicate Admits(k: Key) {
      match this
      case Start(ts) => k.ts >= ts
      case Cursor(key) => key.Less(k)
    }
  }

  // By end time, and by request id where times are equal.
  predicate Ordered(rows: seq<Row>) {
    forall i, j :: 0 <= i < j < |rows| ==>
      rows[i].key.ts < rows[j].key.ts || (rows[i].key.ts == rows[j].key.ts && rows[i].key.id <= rows[j].key.id)
  }

  predicate DistinctKeys(rows: seq<Row>) {
    forall i, j :: 0 <= i < j < |rows| ==> rows[i].key != rows[j].key
  }

  function Select(table: seq<Row>, lower: Lower, end: int): seq<Row> {
    if table == [] then []
    else
      var n := |table| - 1;
      Select(table[..n], lower, end) + if lower.Admits(table[n].key) && table[n].key.ts < end then [table[n]] else []
  }

  lemma {:induction false} SelectMembers(table: seq<Row>, lower: Lower, end: int)
    ensures forall r :: r in Select(table, lower, end) <==> r in table && lower.Admits(r.key) && r.key.ts < end
  {
    if table != [] {
      var n := |table| - 1;
      SelectMembers(table[..n], lower, end);
      assert table == table[..n] + [table[n]];
    }
  }

  lemma {:induction false} SelectOrdered(table: seq<Row>, lower: Lower, end: int)
    requires Ordered(table)
    ensures Ordered(Select(table, lower, end))
  {
    if table != [] {
      var n := |table| - 1;
      SelectOrdered(table[..n], lower, end);
      var before := Select(table[..n], lower, end);
      forall i | 0 <= i < |before|
        ensures !table[n].key.Less(before[i].key)
      {
        SelectMembers(table[..n], lower, end);
        assert before[i] in before;
      }
    }
  }

  /** One page: the first `limit` rows past the lower bound, and where to go on when there are more. */
  method MetricsPage(table: seq<Row>, lower: Lower, end: int, limit: nat)
    returns (rows: seq<Row>, truncated: bool, next: Option<Key>)
    requires limit >= 1
    ensures var sel := Select(table, lower, end);
      && truncated == (|sel| > limit) && rows == sel[..if truncated then limit else |sel|]
      && next == if truncated then Some(sel[limit - 1].key) else None
  {
    var found := Select(table, lower, end);
    rows, truncated := [], false;
    for i := 0 to |found|
      invariant rows == found[..i] && |rows| <= limit
    {
      if |rows| >= limit {
        truncated := true;
        break;
      }
      rows := rows + [found[i]];
    }
    next := if truncated && |rows| > 0 then Some(rows[|rows| - 1].key) else None;
  }

  // ── The walk ──

  /** What a client sees that asks page after page, as a function of the rows in range. */
  function Walk(rows: seq<Row>, limit: nat): seq<Row>
    requires limit >= 1
    decreases |rows|
  {
    if |rows| <= limit then rows
    else
      var rest := Past(rows, rows[limit - 1].key);
      if |rest| < |rows| then rows[..limit] + Walk(rest, limit) else rows[..limit]
  }

  function Past(rows: seq<Row>, k: Key): seq<Row> {
    if rows == [] then []
    else
      var n := |rows| - 1;
      Past(rows[..n], k) + if k.Less(rows[n].key) then [rows[n]] else []
  }

  // Where the rows past a key begin.
  lemma {:induction false} FirstPast(rows: seq<Row>, k: Key) returns (at: nat)
    requires Ordered(rows)
    ensures at <= |rows|
    ensures forall i :: 0 <= i < |rows| ==> (i < at <==> !k.Less(rows[i].key))
  {
    at := 0;
    while at < |rows| && !k.Less(rows[at].key)
      invariant at <= |rows| && forall i :: 0 <= i < at ==> !k.Less(rows[i].key)
    {
      at := at + 1;
    }
    forall i | at < i < |rows|
      ensures k.Less(rows[i].key)
    {
      assert !rows[i].key.Less(rows[at].key);
    }
  }

  // In order, the rows past a key are a suffix that starts after every row up to that key.
  lemma {:induction false} PastIsSuffix(rows: seq<Row>, k: Key, at: nat)
    requires at <= |rows|
    requires forall i :: 0 <= i < |rows| ==> (i < at <==> !k.Less(rows[i].key))
    ensures Past(rows, k) == rows[at..]
  {
    if rows != [] {
      var n := |rows| - 1;
      if at <= n {
        PastIsSuffix(rows[..n], k, at);
        assert rows[at..] == rows[..n][at..] + [rows[n]];
      } else {
        PastIsSuffix(rows[..n], k, n);
        assert Past(rows, k) == Past(rows[..n], k) + [];
      }
    }
  }

  lemma SelectSnoc(table: seq<Row>, r: Row, lower: Lower, end: int)
    ensures Select(table + [r], lower, end)
         == if lower.Admits(r.key) && r.key.ts < end then Select(table, lower, end) + [r] else Select(table, lower, end)
  {
    assert (table + [r])[..|table|] == table && Select(table, lower, end) + [] == Select(table, lower, end);
  }

  lemma PastSnoc(rows: seq<Row>, r: Row, k: Key)
    ensures Past(rows + [r], k) == if k.Less(r.key) then Past(rows, k) + [r] else Past(rows, k)
  {
    assert (rows + [r])[..|rows|] == rows && Past(rows, k) + [] == Past(rows, k);
  }

  // The next page's query finds exactly the rows in range past the cursor.
  lemma {:induction false} SelectPast(table: seq<Row>, lower: Lower, end: int, k: Key)
    requires forall x: Key :: k.Less(x) ==> lower.Admits(x)
    ensures Select(table, Cursor(k), end) == Past(Select(table, lower, end), k)
  {
    if table != [] {
      var init, r := table[..|table| - 1], table[|table| - 1];
      assert table == init + [r];
      hide Select, Past;
      SelectPast(init, lower, end, k);
      SelectSnoc(init, r, Cursor(k), end);
      SelectSnoc(init, r, lower, end);
      PastSnoc(Select(init, lower, end), r, k);
    }
  }

  lemma WalkShrinks(rows: seq<Row>, limit: nat) returns (at: nat)
    requires limit >= 1 && |rows| > limit && Ordered(rows)
    ensures limit <= at <= |rows| && Past(rows, rows[limit - 1].key) == rows[at..]
    ensures Walk(rows, limit) == rows[..limit] + Walk(rows[at..], limit)
    ensures Ordered(rows[at..])
    ensures DistinctKeys(rows) ==> at == limit
    ensures rows[limit].key == rows[limit - 1].key ==> at > limit
  {
    at := FirstPast(rows, rows[limit - 1].key);
    PastIsSuffix(rows, rows[limit - 1].key, at);
    assert !rows[limit].key.Less(rows[limit - 1].key);
    assert DistinctKeys(rows) ==> rows[limit - 1].key != rows[limit].key;
  }

  lemma DistinctSuffix(rows: seq<Row>, from: nat)
    requires DistinctKeys(rows) && from <= |rows|
    ensures DistinctKeys(rows[from..])
  {
    forall i, j | 0 <= i < j < |rows[from..]|
      ensures rows[from..][i].key != rows[from..][j].key
    {
      assert rows[from + i].key != rows[from + j].key;
    }
  }

  /** With distinct keys every row in range is seen exactly once, in order, whatever the page limit. */
  lemma {:induction false} WalkSeesAll(rows: seq<Row>, limit: nat)
    requires limit >= 1 && Ordered(rows) && DistinctKeys(rows)
    ensures Walk(rows, limit) == rows
    decreases |rows|
  {
    if |rows| > limit {
      var at := WalkShrinks(rows, limit);
      DistinctSuffix(rows, limit);
      WalkSeesAll(rows[limit..], limit);
      assert rows[..limit] + rows[limit..] == rows;
    }
  }

  lemma {:induction false} WalkNoLonger(rows: seq<Row>, limit: nat)
    requires limit >= 1 && Ordered(rows)
    ensures |Walk(rows, limit)| <= |rows|
    decreases |rows|
  {
    if |rows| > limit {
      var at := WalkShrinks(rows, limit);
      WalkNoLonger(rows[at..], limit);
    }
  }

  /** A tie on the key is lost by the page limit that ends between the two rows. */
  lemma TieIsLost(rows: seq<Row>, i: nat)
    requires Ordered(rows) && i + 1 < |rows| && rows[i].key == rows[i + 1].key
    ensures |Walk(rows, i + 1)| < |rows|
  {
    var at := WalkShrinks(rows, i + 1);
    WalkNoLonger(rows[at..], i + 1);
  }

  /** Paging is exact for every page limit precisely when the keys in range are distinct. */
  lemma ExactForEveryLimit(rows: seq<Row>)
    requires Ordered(rows)
    ensures (forall limit: nat :: limit >= 1 ==> Walk(rows, limit) == rows) <==> DistinctKeys(rows)
  {
    if DistinctKeys(rows) {
      forall limit: nat | limit >= 1
        ensures Walk(rows, limit) == rows
      {
        WalkSeesAll(rows, limit);
      }
    } else {
      var i, j :| 0 <= i < j < |rows| && rows[i].key == rows[j].key;
      assert !rows[j].key.Less(rows[i + 1].key) && !rows[i + 1].key.Less(rows[i].key);
      TieIsLost(rows, i);
    }
  }

  // One page of the walk, and the query that continues it.
  lemma PageStep(table: seq<Row>, lower: Lower, end: int, limit: nat) returns (at: nat)
    requires limit >= 1 && Ordered(table) && |Select(table, lower, end)| > limit
    ensures var sel := Select(table, lower, end);
      && 0 < at <= |sel| && sel[at..] == Select(table, Cursor(sel[limit - 1].key), end)
      && Walk(sel, limit) == sel[..limit] + Walk(sel[at..], limit)
      && lower != Cursor(sel[limit - 1].key)
  {
    SelectMembers(table, lower, end);
    SelectOrdered(table, lower, end);
    var sel := Select(table, lower, end);
    assert sel[limit - 1] in sel;
    SelectPast(table, lower, end, sel[limit - 1].key);
    at := WalkShrinks(sel, limit);
  }

  function Ids(rows: seq<Row>): set<nat> {
    set r | r in rows && r.key.id != 0 :: r.key.id
  }

  lemma IdsOfBoth(a: seq<Row>, b: seq<Row>)
    ensures Ids(a + b) == Ids(a) + Ids(b)
  {
  }

  /**
   `recoverViaHTTP`: asks page after page until the last one. A request that fails ends it early;
   `replies` is how many succeed.
   */
  method Recover(table: seq<Row>, start: int, end: int, limit: nat, replies: nat)
    returns (observed: seq<Row>, seen: set<nat>, complete: bool)
    requires limit >= 1 && Ordered(table)
    ensures seen == Ids(observed)
    ensures observed <= Walk(Select(table, Start(start), end), limit)
    ensures complete ==> observed == Walk(Select(table, Start(start), end), limit)
    ensures complete && DistinctKeys(Select(table, Start(start), end)) ==> observed == Select(table, Start(start), end)
    ensures replies > |table| ==> complete
    // Nothing else is observed, and nothing is missed when keys are distinct.
    ensures forall r :: r in observed ==> r in table && start <= r.key.ts < end
    ensures complete && DistinctKeys(table) ==> forall r :: r in table && start <= r.key.ts < end ==> r in observed
  {
    ghost var all := Select(table, Start(start), end);
    SelectNoLonger(table, Start(start), end);
    observed, seen, complete := [], {}, false;
    hide Ordered, DistinctKeys;
    var lower, pages := Start(start), 0;
    ghost var left := all;
    while !complete && pages < replies
      invariant left == Select(table, lower, end)
      invariant if complete then observed == Walk(all, limit) else observed + Walk(left, limit) == Walk(all, limit)
      invariant seen == Ids(observed)
      invariant pages + |left| <= |table| + 1 && pages <= replies && (!complete ==> pages + |left| <= |table|)
      decreases replies - pages
    {
      var rows, truncated, next := MetricsPage(table, lower, end, limit);
      pages := pages + 1;
      seen := seen + Ids(rows);
      IdsOfBoth(observed, rows);
      if truncated {
        var at := PageStep(table, lower, end, limit);
        AppendAssociative(observed, rows, Walk(left[at..], limit));
        left := left[at..];
      }
      observed := observed + rows;
      if !truncated || next.None? || lower == Cursor(next.value) {
        complete := true;
      } else {
        lower := Cursor(next.value);
      }
    }
    Finished(table, start, end, limit);
    NothingElse(table, start, end, limit);
  }

  // What the walk gives, row by row.
  lemma NothingElse(table: seq<Row>, start: int, end: int, limit: nat)
    requires limit >= 1 && Ordered(table)
    ensures var walk := Walk(Select(table, Start(start), end), limit);
      && (forall r :: r in walk ==> r in table && start <= r.key.ts < end)
      && (DistinctKeys(table) ==> forall r :: r in table && start <= r.key.ts < end ==> r in walk)
  {
    SelectMembers(table, Start(start), end);
    SelectOrdered(table, Start(start), end);
    WalkMembers(Select(table, Start(start), end), limit);
    if DistinctKeys(table) {
      SelectDistinct(table, Start(start), end);
      Finished(table, start, end, limit);
    }
  }

  lemma {:induction false} WalkMembers(rows: seq<Row>, limit: nat)
    requires limit >= 1 && Ordered(rows)
    ensures forall r :: r in Walk(rows, limit) ==> r in rows
    decreases |rows|
  {
    if |rows| > limit {
      var at := WalkShrinks(rows, limit);
      WalkMembers(rows[at..], limit);
    }
  }

  lemma {:induction false} SelectDistinct(table: seq<Row>, lower: Lower, end: int)
    requires DistinctKeys(table)
    ensures DistinctKeys(Select(table, lower, end))
  {
    if table != [] {
      var n := |table| - 1;
      SelectDistinct(table[..n], lower, end);
      SelectMembers(table[..n], lower, end);
      var before := Select(table[..n], lower, end);
      forall i | 0 <= i < |before|
        ensures before[i].key != table[n].key
      {
        assert before[i] in before;
      }
    }
  }

  lemma Finished(table: seq<Row>, start: int, end: int, limit: nat)
    requires limit >= 1 && Ordered(table)
    ensures var all := Select(table, Start(start), end); DistinctKeys(all) ==> Walk(all, limit) == all
  {
    SelectOrdered(table, Start(start), end);
    if DistinctKeys(Select(table, Start(start), end)) {
      WalkSeesAll(Select(table, Start(start), end), limit);
    }
  }

  lemma {:induction false} SelectNoLonger(table: seq<Row>, lower: Lower, end: int)
    ensures |Select(table, lower, end)| <= |table|
  {
    if table != [] {
      SelectNoLonger(table[..|table| - 1], lower, end);
    }
  }

  // ── The cursor text ──

  function IndexOf(s: string, c: char): (i: nat)
    ensures i <= |s| && (i < |s| ==> s[i] == c) && forall j :: 0 <= j < i ==> s[j] != c
    decreases |s|
  {
    if s == [] || s[0] == c then 0
    else
      var i := IndexOf(s[1..], c);
      assert forall j :: 0 < j <= i ==> j <= |s[1..]| && (j - 1 < i ==> s[1..][j - 1] == s[j]);
      i + 1
  }

  datatype Parsed = Absent | Malformed | Pair(ts: string, id: string)

  function MakeCursor(ts: string, id: string, encode: string -> string): string {
    encode(ts + "|" + id)
  }

  function ParseCursor(s: string, decode: string -> Option<string>): Parsed {
    if s == "" then Absent
    else
      var b := decode(s);
      if b.None? then Malformed
      else
        var i := IndexOf(b.value, '|');
        if i == |b.value| then Malformed else Pair(b.value[..i], b.value[i + 1..])
  }

  // What is asked of base64url: decoding undoes encoding, and only the empty text encodes to nothing.
  ghost predicate Undoes(encode: string -> string, decode: string -> Option<string>) {
    && (forall b :: decode(encode(b)) == Some(b))
    && (forall b :: encode(b) == "" ==> b == "")
  }

  lemma FirstIs(s: string, c: char, i: nat)
    requires i < |s| && s[i] == c && forall j :: 0 <= j < i ==> s[j] != c
    ensures IndexOf(s, c) == i
  {
  }

  /** A cursor parses back to what made it exactly when the time has no separator in it; the id may. */
  lemma CursorRoundTrip(ts: string, id: string, encode: string -> string, decode: string -> Option<string>)
    requires Undoes(encode, decode)
    ensures ParseCursor(MakeCursor(ts, id, encode), decode) == Pair(ts, id) <==> '|' !in ts
  {
    var b := ts + "|" + id;
    assert decode(encode(b)) == Some(b) && b[|ts|] == '|';
    assert encode(b) != "";
    if '|' !in ts {
      FirstIs(b, '|', |ts|);
      assert b[..|ts|] == ts && b[|ts| + 1..] == id;
    } else {
      var j :| 0 <= j < |ts| && ts[j] == '|';
      assert b[j] == '|';
      var i := IndexOf(b, '|');
      assert |b[..i]| < |ts|;
    }
  }

  /** Different pairs have different cursors, as long as the times have no separator. */
  lemma CursorInjective(ts: string, id: string, ts': string, id': string, encode: string -> string,
                        decode: string -> Option<string>)
    requires Undoes(encode, decode) && '|' !in ts && '|' !in ts'
    requires MakeCursor(ts, id, encode) == MakeCursor(ts', id', encode)
    ensures ts == ts' && id == id'
  {
    CursorRoundTrip(ts, id, encode, decode);
    CursorRoundTrip(ts', id', encode, decode);
  }
}
