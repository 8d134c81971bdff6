/**
 What the body log keeps of a response: a head of whole chunks and a ring of the last ones, with the
 bytes of both and of what was evicted always adding up.
 */
module BodyRing {
  import opened Frame

  const MAX_REQ := 10 * 1024 * 1024
  const MAX_RESP_HEAD := 1536 * 1024
  const MAX_RESP_TAIL := 512 * 1024

  type Chunk = seq<byte>

  /** The bytes of the chunks at positions `i` to `j`, `j` excluded. */
  function Size(chunks: seq<Chunk>, i: nat, j: nat): nat
    requires j <= |chunks|
    decreases |chunks| - i
  {
    if i >= j then 0 else |chunks[i]| + Size(chunks, i + 1, j)
  }

  function Flat(chunks: seq<Chunk>, i: nat, j: nat): Chunk
    requires j <= |chunks|
    decreases |chunks| - i
  {
    if i >= j then [] else chunks[i] + Flat(chunks, i + 1, j)
  }

  function Bytes(chunks: seq<Chunk>): nat {
    Size(chunks, 0, |chunks|)
  }

  lemma {:induction false} SizeSplit(chunks: seq<Chunk>, i: nat, j: nat, k: nat)
    requires i <= j <= k <= |chunks|
    ensures Size(chunks, i, k) == Size(chunks, i, j) + Size(chunks, j, k)
    decreases |chunks| - i
  {
    if i < j {
      SizeSplit(chunks, i + 1, j, k);
    }
  }

  // A chunk added at the end leaves the positions before it as they were.
  lemma {:induction false} SizeSame(chunks: seq<Chunk>, c: Chunk, i: nat, j: nat)
    requires j <= |chunks|
    ensures Size(chunks + [c], i, j) == Size(chunks, i, j)
    decreases |chunks| + 1 - i
  {
    if i < j {
      SizeSame(chunks, c, i + 1, j);
    }
  }

  lemma SizeSnoc(chunks: seq<Chunk>, c: Chunk, i: nat)
    requires i <= |chunks|
    ensures Size(chunks + [c], i, |chunks| + 1) == Size(chunks, i, |chunks|) + |c|
  {
    SizeSplit(chunks + [c], i, |chunks|, |chunks| + 1);
    SizeSame(chunks, c, i, |chunks|);
    assert Size(chunks + [c], |chunks| + 1, |chunks| + 1) == 0;
  }

  lemma {:induction false} FlatLength(chunks: seq<Chunk>, i: nat, j: nat)
    requires j <= |chunks|
    ensures |Flat(chunks, i, j)| == Size(chunks, i, j)
    decreases |chunks| - i
  {
    if i < j {
      FlatLength(chunks, i + 1, j);
    }
  }

  lemma {:induction false} FlatNext(chunks: seq<Chunk>, i: nat, j: nat)
    requires i <= j < |chunks|
    ensures Flat(chunks, i, j + 1) == Flat(chunks, i, j) + chunks[j]
    decreases |chunks| - i
  {
    if i < j {
      FlatNext(chunks, i + 1, j);
      assert chunks[i] + (Flat(chunks, i + 1, j) + chunks[j]) == (chunks[i] + Flat(chunks, i + 1, j)) + chunks[j];
    } else {
      assert Flat(chunks, j + 1, j + 1) == [];
    }
  }

  // Where each chunk goes: the head, as long as it still fits when it comes, or the ring.
  datatype Regions = Regions(heads: seq<Chunk>, overs: seq<Chunk>)
  {
    predicate Fits(c: Chunk) {
      Bytes(heads) + |c| <= MAX_RESP_HEAD
    }

    function With(c: Chunk): Regions {
      if Fits(c) then this.(heads := heads + [c]) else this.(overs := overs + [c])
    }
  }

  function Split(chunks: seq<Chunk>): Regions {
    if chunks == [] then Regions([], []) else Split(chunks[..|chunks| - 1]).With(chunks[|chunks| - 1])
  }

  lemma SplitSnoc(chunks: seq<Chunk>, c: Chunk)
    ensures Split(chunks + [c]) == Split(chunks).With(c)
  {
    assert (chunks + [c])[..|chunks|] == chunks;
  }

  lemma OneMoreChunk(chunks: seq<Chunk>, c: Chunk)
    ensures Split(chunks + [c]) == Split(chunks).With(c)
    ensures Bytes(chunks + [c]) == Bytes(chunks) + |c|
    ensures Bytes(Split(chunks).heads + [c]) == Bytes(Split(chunks).heads) + |c|
  {
    SplitSnoc(chunks, c);
    SizeSnoc(chunks, c, 0);
    SizeSnoc(Split(chunks).heads, c, 0);
  }

  /** Every byte goes to exactly one of the two regions, and the head stays within its limit. */
  lemma {:induction false} NoByteLost(chunks: seq<Chunk>)
    ensures Bytes(Split(chunks).heads) + Bytes(Split(chunks).overs) == Bytes(chunks)
    ensures Bytes(Split(chunks).heads) <= MAX_RESP_HEAD
  {
    if chunks != [] {
      var n := |chunks| - 1;
      var init, c := chunks[..n], chunks[n];
      NoByteLost(init);
      assert chunks == init + [c];
      SizeSnoc(init, c, 0);
      SizeSnoc(Split(init).heads, c, 0);
      SizeSnoc(Split(init).overs, c, 0);
    }
  }

  // Room in the head only shrinks: what was turned away once would be turned away now.
  lemma {:induction false} TurnedAwayStays(chunks: seq<Chunk>)
    ensures forall d :: d in Split(chunks).overs ==> !Split(chunks).Fits(d)
  {
    if chunks != [] {
      var init, c := chunks[..|chunks| - 1], chunks[|chunks| - 1];
      TurnedAwayStays(init);
      SizeSnoc(Split(init).heads, c, 0);
    }
  }

  predicate CutAt(r: Regions, chunks: seq<Chunk>, k: nat)
    requires k <= |chunks|
  {
    r == Regions(chunks[..k], chunks[k..])
  }

  // Head and overflow are a prefix and the rest of the response.
  predicate InOrder(chunks: seq<Chunk>, k: nat)
    requires k <= |chunks|
  {
    CutAt(Split(chunks), chunks, k)
  }

  lemma SnocEqual(a: seq<Chunk>, b: seq<Chunk>, x: Chunk, y: Chunk)
    requires a + [x] == b + [y]
    ensures a == b && x == y
  {
    assert (a + [x])[..|a|] == a && (a + [x])[|a|] == x;
    assert (b + [y])[..|b|] == b && (b + [y])[|b|] == y;
  }

  lemma CutBefore(r: Regions, init: seq<Chunk>, c: Chunk, k: nat)
    requires k <= |init| && (c in r.overs ==> !r.Fits(c))
    ensures CutAt(r.With(c), init + [c], k) <==> CutAt(r, init, k) && !r.Fits(c)
  {
    assert (init + [c])[..k] == init[..k] && (init + [c])[k..] == init[k..] + [c];
    if r.overs == init[k..] + [c] {
      assert r.overs[|init| - k] == c;
    }
    if r.overs + [c] == init[k..] + [c] {
      SnocEqual(r.overs, init[k..], c, c);
    }
  }

  lemma CutAfter(r: Regions, init: seq<Chunk>, c: Chunk)
    ensures CutAt(r.With(c), init + [c], |init| + 1) <==> CutAt(r, init, |init|) && r.Fits(c)
  {
    assert (init + [c])[..|init| + 1] == init + [c] && (init + [c])[|init| + 1..] == [];
    assert init[..|init|] == init && init[|init|..] == [];
    if r.heads + [c] == init + [c] {
      SnocEqual(r.heads, init, c, c);
    }
  }

  lemma InOrderStep(init: seq<Chunk>, c: Chunk, k: nat)
    requires k <= |init|
    ensures InOrder(init + [c], k) <==> InOrder(init, k) && !Split(init).Fits(c)
  {
    SplitSnoc(init, c);
    TurnedAwayStays(init);
    CutBefore(Split(init), init, c, k);
  }

  lemma AllInOrder(init: seq<Chunk>, c: Chunk)
    ensures InOrder(init + [c], |init| + 1) <==> InOrder(init, |init|) && Split(init).Fits(c)
  {
    SplitSnoc(init, c);
    CutAfter(Split(init), init, c);
  }

  /**
   Exactly when head and overflow are the first k chunks and the others: the first k fit together, and
   each later one is longer than the room they leave.
   */
  lemma {:induction false} InOrderExactly(chunks: seq<Chunk>, k: nat)
    requires k <= |chunks|
    ensures InOrder(chunks, k) <==>
      Bytes(chunks[..k]) <= MAX_RESP_HEAD
      && forall i :: k <= i < |chunks| ==> Bytes(chunks[..k]) + |chunks[i]| > MAX_RESP_HEAD
  {
    if chunks != [] {
      var n := |chunks| - 1;
      var init, c := chunks[..n], chunks[n];
      assert chunks == init + [c];
      if k <= n {
        InOrderExactly(init, k);
        InOrderStep(init, c, k);
        assert init[..k] == chunks[..k];
      } else {
        InOrderExactly(init, n);
        AllInOrder(init, c);
        SizeSnoc(init, c, 0);
        assert init[..n] == init && chunks[..k] == chunks;
      }
    } else {
      assert chunks[..0] == [] && chunks[0..] == [];
    }
  }

  /** A chunk that enters the head after another was turned away ends the order for good. */
  lemma {:induction false} OvertakingBreaksOrder(chunks: seq<Chunk>, c: Chunk, more: seq<Chunk>, k: nat)
    requires Split(chunks).overs != [] && Split(chunks).Fits(c) && k <= |chunks| + 1 + |more|
    ensures !InOrder(chunks + [c] + more, k)
    decreases |more|
  {
    if more == [] {
      assert chunks + [c] + more == chunks + [c];
      if k <= |chunks| {
        InOrderStep(chunks, c, k);
      } else {
        SplitSnoc(chunks, c);
      }
    } else {
      var m := |more| - 1;
      var init := chunks + [c] + more[..m];
      assert chunks + [c] + more == init + [more[m]];
      if k <= |init| {
        OvertakingBreaksOrder(chunks, c, more[..m], k);
        InOrderStep(init, more[m], k);
      } else {
        OvertakingBreaksOrder(chunks, c, more[..m], |init|);
        AllInOrder(init, more[m]);
      }
    }
  }

  // What the ring knows: the overflow chunks so far, how many of them it has evicted, and its bytes.
  ghost predicate RingHolds(ring: map<nat, Chunk>, over: seq<Chunk>, headIdx: nat, tailIdx: nat, ringBytes: nat) {
    && tailIdx == |over| && 1 <= headIdx <= tailIdx + 1
    && (forall i :: i in ring <==> headIdx <= i <= tailIdx)
    && (forall i :: i in ring ==> ring[i] == over[i - 1])
    && ringBytes == Size(over, headIdx - 1, |over|)
    && TooLongBefore(over, headIdx - 1)
  }

  // No run of last chunks that starts earlier would fit.
  ghost predicate TooLongBefore(over: seq<Chunk>, from: nat) {
    from <= |over| && forall j :: 0 <= j < from ==> Size(over, j, |over|) > MAX_RESP_TAIL
  }

  lemma TooLongStays(over: seq<Chunk>, c: Chunk, from: nat)
    requires TooLongBefore(over, from)
    ensures TooLongBefore(over + [c], from)
  {
    forall j | 0 <= j < from
      ensures Size(over + [c], j, |over + [c]|) > MAX_RESP_TAIL
    {
      SizeSnoc(over, c, j);
      assert Size(over, j, |over|) > MAX_RESP_TAIL;
    }
  }

  class Recorder {
    var chunks: seq<Chunk>       // the head
    var headSize: nat
    var ring: map<nat, Chunk>    // positions headIdx..tailIdx
    var headIdx: nat
    var tailIdx: nat
    var ringBytes: nat
    var totalBytes: nat
    var truncated: bool
    ghost var fed: seq<Chunk>

    ghost function Over(): seq<Chunk>
      reads this`fed
    {
      Split(fed).overs
    }

    /** The ring holds the last overflow chunks, as many as fit; everything else is counted. */
    ghost predicate Valid()
      reads this
    {
      Consistent() && ringBytes <= MAX_RESP_TAIL
    }

    ghost predicate Consistent()
      reads this
    {
      && chunks == Split(fed).heads && headSize == Bytes(chunks) && totalBytes == Bytes(fed)
      && RingHolds(ring, Over(), headIdx, tailIdx, ringBytes)
      && (truncated <==> Over() != [])
    }

    constructor ()
      ensures Valid() && fed == []
    {
      chunks, headSize, ring, headIdx, tailIdx, ringBytes := [], 0, map[], 1, 0, 0;
      totalBytes, truncated, fed := 0, false, [];
    }

    ghost function Evicted(): nat
      requires Valid()
      reads this
    {
      Size(Over(), 0, headIdx - 1)
    }

    /** Total = head + tail + evicted, each region within its limit. */
    lemma BytesAddUp()
      requires Valid()
      ensures totalBytes == headSize + ringBytes + Evicted()
      ensures headSize <= MAX_RESP_HEAD && ringBytes <= MAX_RESP_TAIL
    {
      NoByteLost(fed);
      SizeSplit(Over(), 0, headIdx - 1, |Over()|);
    }

    /** The ring is the longest run of last overflow chunks that fits. */
    lemma LongestSuffix(from: nat)
      requires Valid() && from <= |Over()|
      ensures Size(Over(), from, |Over()|) <= MAX_RESP_TAIL <==> from >= headIdx - 1
    {
      if from >= headIdx - 1 {
        SizeSplit(Over(), headIdx - 1, from, |Over()|);
      }
    }

    /** `bodylog_filter_chunk` for one chunk of the response. */
    method FilterChunk(chunk: Chunk)
      requires Valid()
      modifies this
      ensures Valid()
      ensures fed == if |chunk| > 0 then old(fed) + [chunk] else old(fed)
    {
      if |chunk| > 0 {
        OneMoreChunk(fed, chunk);
        totalBytes := totalBytes + |chunk|;
        if headSize + |chunk| <= MAX_RESP_HEAD {
          ToHead(chunk);
        } else {
          ToRing(chunk);
        }
      }
    }

    method ToHead(chunk: Chunk)
      requires Split(fed).Fits(chunk) && Split(fed + [chunk]) == Split(fed).With(chunk)
      requires chunks == Split(fed).heads && RingHolds(ring, Over(), headIdx, tailIdx, ringBytes)
      modifies this`chunks, this`headSize, this`fed
      ensures fed == old(fed) + [chunk] && chunks == Split(fed).heads && headSize == old(headSize) + |chunk|
      ensures Over() == old(Over()) && RingHolds(ring, Over(), headIdx, tailIdx, ringBytes)
    {
      chunks, headSize := chunks + [chunk], headSize + |chunk|;
      fed := fed + [chunk];
    }

    method ToRing(chunk: Chunk)
      requires !Split(fed).Fits(chunk) && Split(fed + [chunk]) == Split(fed).With(chunk)
      requires RingHolds(ring, Over(), headIdx, tailIdx, ringBytes)
      modifies this`ring, this`headIdx, this`tailIdx, this`ringBytes, this`truncated, this`fed
      ensures fed == old(fed) + [chunk] && truncated
      ensures Over() == old(Over()) + [chunk] && Split(fed).heads == old(Split(fed).heads)
      ensures RingHolds(ring, Over(), headIdx, tailIdx, ringBytes) && ringBytes <= MAX_RESP_TAIL
    {
      truncated := true;
      Overflow(chunk, Over());
      fed := fed + [chunk];
    }

    method Overflow(chunk: Chunk, ghost over: seq<Chunk>)
      requires RingHolds(ring, over, headIdx, tailIdx, ringBytes)
      modifies this`ring, this`headIdx, this`tailIdx, this`ringBytes
      ensures RingHolds(ring, over + [chunk], headIdx, tailIdx, ringBytes) && ringBytes <= MAX_RESP_TAIL
    {
      Push(chunk, over);
      Evict(over + [chunk]);
    }

    method Push(chunk: Chunk, ghost over: seq<Chunk>)
      requires RingHolds(ring, over, headIdx, tailIdx, ringBytes)
      modifies this`tailIdx, this`ring, this`ringBytes
      ensures RingHolds(ring, over + [chunk], headIdx, tailIdx, ringBytes)
    {
      TooLongStays(over, chunk, headIdx - 1);
      SizeSnoc(over, chunk, headIdx - 1);
      tailIdx := tailIdx + 1;
      ring := ring[tailIdx := chunk];
      ringBytes := ringBytes + |chunk|;
    }

    method Evict(ghost over: seq<Chunk>)
      requires RingHolds(ring, over, headIdx, tailIdx, ringBytes)
      modifies this`ring, this`headIdx, this`ringBytes
      ensures RingHolds(ring, over, headIdx, tailIdx, ringBytes) && ringBytes <= MAX_RESP_TAIL
    {
      while ringBytes > MAX_RESP_TAIL && headIdx <= tailIdx
        invariant RingHolds(ring, over, headIdx, tailIdx, ringBytes)
        decreases tailIdx + 1 - headIdx
      {
        var oldest := ring[headIdx];
        ring := ring - {headIdx};
        headIdx := headIdx + 1;
        ringBytes := ringBytes - |oldest|;
      }
    }

    /** The logged body: head, a marker with the number of missing bytes, tail; no marker when the ring is empty. */
    method Assemble(marker: nat -> Chunk) returns (body: Chunk, missing: nat)
      requires Valid()
      ensures tailIdx < headIdx ==> body == Flat(Split(fed).heads, 0, |Split(fed).heads|) && missing == 0
      ensures tailIdx >= headIdx ==>
        missing == Evicted()
        && body == Flat(Split(fed).heads, 0, |Split(fed).heads|) + marker(missing) + Flat(Over(), headIdx - 1, |Over()|)
      ensures |body| <= MAX_RESP_HEAD + MAX_RESP_TAIL + |marker(missing)|
    {
      BytesAddUp();
      FlatLength(chunks, 0, |chunks|);
      body, missing := Flat(chunks, 0, |chunks|), 0;
      if tailIdx >= headIdx {
        missing := totalBytes - (headSize + ringBytes);
        var tail := RingContents();
        FlatLength(Over(), headIdx - 1, |Over()|);
        body := body + marker(missing) + tail;
      }
    }

    method RingContents() returns (tail: Chunk)
      requires Valid()
      ensures tail == Flat(Over(), headIdx - 1, |Over()|)
    {
      tail := [];
      var i := headIdx;
      ghost var over := Over();
      while i <= tailIdx
        invariant headIdx <= i <= tailIdx + 1
        invariant tail == Flat(over, headIdx - 1, i - 1)
      {
        FlatNext(over, headIdx - 1, i - 1);
        tail := tail + ring[i];
        i := i + 1;
      }
    }
  }

  // The request body is cut at its limit.
  function CapturedRequest(body: Chunk): (r: Chunk)
    ensures r <= body && |r| == if |body| <= MAX_REQ then |body| else MAX_REQ
  {
    if |body| > MAX_REQ then body[..MAX_REQ] else body
  }

  /** Whatever was recorded, a frame with a meta of at most 65535 bytes is one the reader accepts. */
  lemma RecordedFrameIsReadable(meta: Chunk, request: Chunk, resp: Chunk, markerLength: nat, rest: seq<byte>)
    requires |meta| < 0x1_0000 && |resp| <= MAX_RESP_HEAD + MAX_RESP_TAIL + markerLength && markerLength <= 0x10_0000
    ensures Sendable(Entry(meta, CapturedRequest(request), resp))
    ensures var e := Entry(meta, CapturedRequest(request), resp); Read(Packed(e) + rest) == Ok(e)
  {
    ReadsBack(Entry(meta, CapturedRequest(request), resp), rest);
  }
}
