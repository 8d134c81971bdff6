/**
 The body-log frame: what the router packs and the listener reads back.
 */
module Frame {

  type byte = b: int | 0 <= b < 256

  const MAX_FRAME := 64 * 1024 * 1024

  // Big-endian: the low bytes of the number, the lowest last.
  function Pack(n: nat, width: nat): (b: seq<byte>)
    ensures |b| == width
  {
    if width == 0 then [] else Pack(n / 0x100, width - 1) + [n % 0x100]
  }

  function Unpack(b: seq<byte>): nat {
    if b == [] then 0
    else
      var low: int := b[|b| - 1];
      Unpack(b[..|b| - 1]) * 0x100 + low
  }

  function Range(width: nat): nat {
    if width == 0 then 1 else 0x100 * Range(width - 1)
  }

  lemma OneByteMore(high: nat, range: nat, low: nat, byte0: nat)
    requires low < range && byte0 < 0x100
    ensures (high * range + low) * 0x100 + byte0 == high * (0x100 * range) + (low * 0x100 + byte0)
    ensures low * 0x100 + byte0 < 0x100 * range
  {
    assert (high * range) * 0x100 == high * (0x100 * range);
  }

  lemma {:induction false} Unpacked(n: nat, width: nat) returns (high: nat)
    ensures n == high * Range(width) + Unpack(Pack(n, width)) && Unpack(Pack(n, width)) < Range(width)
  {
    if width == 0 {
      high := n;
    } else {
      high := Unpacked(n / 0x100, width - 1);
      var b := Pack(n, width);
      assert b[..width - 1] == Pack(n / 0x100, width - 1);
      OneByteMore(high, Range(width - 1), Unpack(Pack(n / 0x100, width - 1)), n % 0x100);
    }
  }

  lemma {:induction false} PackUnpack(b: seq<byte>)
    ensures Pack(Unpack(b), |b|) == b
  {
    if b != [] {
      var init := b[..|b| - 1];
      PackUnpack(init);
      var low: int := b[|b| - 1];
      assert Unpack(b) / 0x100 == Unpack(init) && Unpack(b) % 0x100 == low;
      assert b == init + [b[|b| - 1]];
    }
  }

  /** The bytes of `_pack_u16` and `_pack_u32`. */
  lemma PackIsShiftAndMask(n: nat)
    ensures Pack(n, 2) == [n / 0x100 % 0x100, n % 0x100]
    ensures Pack(n, 4) == [n / 0x100_0000 % 0x100, n / 0x1_0000 % 0x100, n / 0x100 % 0x100, n % 0x100]
  {
    var a, b, c := n / 0x100, n / 0x100 / 0x100, n / 0x100 / 0x100 / 0x100;
    assert b == n / 0x1_0000 && c == n / 0x100_0000;
    assert Pack(c, 1) == Pack(c / 0x100, 0) + [c % 0x100];
    assert Pack(b, 2) == Pack(c, 1) + [b % 0x100];
    assert Pack(a, 1) == Pack(b, 0) + [a % 0x100];
    assert Pack(a, 3) == Pack(b, 2) + [a % 0x100];
  }

  lemma RangeValues()
    ensures Range(2) == 0x1_0000 && Range(4) == 0x1_0000_0000
  {
    assert Range(1) == 0x100 && Range(3) == 0x100 * Range(2);
  }

  lemma AtLeast(high: nat, range: nat)
    ensures high == 0 ==> high * range == 0
    ensures high > 0 ==> high * range >= range
  {
    if high > 0 {
      assert high * range == range + (high - 1) * range;
    }
  }

  // A length that fits comes back; any other loses a multiple of the range.
  lemma UnpackPack(n: nat, width: nat)
    ensures n < Range(width) ==> Unpack(Pack(n, width)) == n
    ensures n >= Range(width) ==> Unpack(Pack(n, width)) < n
    ensures Range(2) == 0x1_0000 && Range(4) == 0x1_0000_0000
  {
    var high := Unpacked(n, width);
    AtLeast(high, Range(width));
    RangeValues();
  }

  datatype Entry = Entry(meta: seq<byte>, req: seq<byte>, resp: seq<byte>)
  {
    function PayloadLength(): nat {
      |meta| + |req| + |resp| + 10
    }
  }

  function Payload(e: Entry): seq<byte> {
    Pack(|e.meta|, 2) + e.meta + Pack(|e.req|, 4) + e.req + Pack(|e.resp|, 4) + e.resp
  }

  function Packed(e: Entry): seq<byte> {
    Pack(|Payload(e)|, 4) + Payload(e)
  }

  // End of the stream before a frame; or what is wrong with it.
  datatype Error = NoLength | BadLength | ShortPayload | TooShortForMeta | TruncatedAtMeta | TruncatedAtReq | SizeMismatch

  datatype Result = Ok(e: Entry) | Err(error: Error)

  // What the payload of a frame holds.
  function Parse(buf: seq<byte>): Result {
    if |buf| < 2 then Err(TooShortForMeta)
    else
      var m := Unpack(buf[..2]);
      if 2 + m + 4 > |buf| then Err(TruncatedAtMeta)
      else
        var q := Unpack(buf[2 + m..2 + m + 4]);
        var at := 2 + m + 4 + q;
        if at + 4 > |buf| then Err(TruncatedAtReq)
        else if at + 4 + Unpack(buf[at..at + 4]) != |buf| then Err(SizeMismatch)
        else Ok(Entry(buf[2..2 + m], buf[2 + m + 4..at], buf[at + 4..]))
  }

  function Read(input: seq<byte>): Result {
    if |input| < 4 then Err(NoLength)
    else
      var total := Unpack(input[..4]);
      if total == 0 || total > MAX_FRAME then Err(BadLength)
      else if |input| - 4 < total then Err(ShortPayload)
      else Parse(input[4..4 + total])
  }

  /** `readFrame`: the sections by a moving position; no slice is ever out of range, whatever the input. */
  method ReadFrame(input: seq<byte>) returns (r: Result, rest: seq<byte>)
    ensures r == Read(input)
    ensures r.Ok? ==> rest == input[4 + Unpack(input[..4])..]
  {
    hide Unpack;
    rest := input;
    if |input| < 4 {
      return Err(NoLength), rest;
    }
    var total := Unpack(input[..4]);
    if total == 0 || total > MAX_FRAME {
      return Err(BadLength), rest;
    }
    if |input| - 4 < total {
      return Err(ShortPayload), rest;
    }
    var buf := input[4..4 + total];
    if |buf| < 2 {
      return Err(TooShortForMeta), rest;
    }
    var metaLen := Unpack(buf[..2]);
    var pos: nat := 2;
    if pos + metaLen + 4 > |buf| {
      return Err(TruncatedAtMeta), rest;
    }
    var meta := buf[pos..pos + metaLen];
    pos := pos + metaLen;
    var reqLen := Unpack(buf[pos..pos + 4]);
    pos := pos + 4;
    if pos + reqLen + 4 > |buf| {
      return Err(TruncatedAtReq), rest;
    }
    var req := buf[pos..pos + reqLen];
    pos := pos + reqLen;
    var respLen := Unpack(buf[pos..pos + 4]);
    pos := pos + 4;
    if pos + respLen != |buf| {
      return Err(SizeMismatch), rest;
    }
    r, rest := Ok(Entry(meta, req, buf[pos..pos + respLen])), input[4 + total..];
    assert buf[pos..pos + respLen] == buf[pos..];
  }

  // Where the sections of a payload lie.
  lemma PayloadSections(e: Entry)
    ensures var p, m, q := Payload(e), |e.meta|, |e.req|;
      && |p| == e.PayloadLength()
      && p[..2] == Pack(m, 2) && p[2..2 + m] == e.meta
      && p[2 + m..2 + m + 4] == Pack(q, 4) && p[2 + m + 4..2 + m + 4 + q] == e.req
      && p[2 + m + 4 + q..2 + m + 8 + q] == Pack(|e.resp|, 4) && p[2 + m + 8 + q..] == e.resp
  {
  }

  lemma ParseSections(buf: seq<byte>, e: Entry, at: nat)
    requires at == 6 + |e.meta| + |e.req| && |buf| == at + 4 + |e.resp|
    requires Unpack(buf[..2]) == |e.meta| && buf[2..2 + |e.meta|] == e.meta
    requires Unpack(buf[2 + |e.meta|..2 + |e.meta| + 4]) == |e.req| && buf[2 + |e.meta| + 4..at] == e.req
    requires Unpack(buf[at..at + 4]) == |e.resp| && buf[at + 4..] == e.resp
    ensures Parse(buf) == Ok(e)
  {
  }

  lemma LengthsComeBack(e: Entry)
    requires |e.meta| < 0x1_0000 && e.PayloadLength() <= MAX_FRAME
    ensures Unpack(Pack(|e.meta|, 2)) == |e.meta| && Unpack(Pack(|e.req|, 4)) == |e.req|
    ensures Unpack(Pack(|e.resp|, 4)) == |e.resp|
  {
    UnpackPack(|e.meta|, 2);
    UnpackPack(|e.req|, 4);
    UnpackPack(|e.resp|, 4);
  }

  lemma ParsePayload(e: Entry)
    requires |e.meta| < 0x1_0000 && e.PayloadLength() <= MAX_FRAME
    ensures Parse(Payload(e)) == Ok(e)
  {
    hide Payload, Pack, Unpack, Parse;
    PayloadSections(e);
    LengthsComeBack(e);
    ParseSections(Payload(e), e, 6 + |e.meta| + |e.req|);
  }

  lemma {:induction false} UnpackBounded(b: seq<byte>)
    ensures Unpack(b) < Range(|b|)
  {
    if b != [] {
      UnpackBounded(b[..|b| - 1]);
    }
  }

  // A parsed entry is as long as its payload.
  lemma ParsedLength(buf: seq<byte>)
    requires Parse(buf).Ok?
    ensures Parse(buf).e.PayloadLength() == |buf| && |Parse(buf).e.meta| < 0x1_0000
  {
    UnpackBounded(buf[..2]);
    RangeValues();
  }

  /** A packed entry reads back as itself exactly when its meta fits 16 bits and its payload the reader's limit. */
  lemma ReadsBack(e: Entry, rest: seq<byte>)
    ensures Read(Packed(e) + rest) == Ok(e) <==> |e.meta| < 0x1_0000 && e.PayloadLength() <= MAX_FRAME
  {
    var input, p := Packed(e) + rest, Payload(e);
    PayloadSections(e);
    assert input[..4] == Pack(|p|, 4);
    UnpackPack(|p|, 4);
    if |e.meta| < 0x1_0000 && e.PayloadLength() <= MAX_FRAME {
      assert input[4..4 + |p|] == p;
      ParsePayload(e);
    } else if Read(input) == Ok(e) {
      ParsedLength(input[4..4 + Unpack(input[..4])]);
      assert false;
    }
  }

  lemma SixParts(b: seq<byte>, i: nat, j: nat, k: nat, l: nat, m: nat)
    requires i <= j <= k <= l <= m <= |b|
    ensures b == b[..i] + b[i..j] + b[j..k] + b[k..l] + b[l..m] + b[m..]
  {
  }

  lemma PayloadOfParsed(buf: seq<byte>)
    requires Parse(buf).Ok?
    ensures Payload(Parse(buf).e) == buf
  {
    var e := Parse(buf).e;
    var m := |e.meta|;
    var at := 2 + m + 4 + |e.req|;
    PackUnpack(buf[..2]);
    PackUnpack(buf[2 + m..2 + m + 4]);
    PackUnpack(buf[at..at + 4]);
    assert Pack(m, 2) == buf[..2] && Pack(|e.req|, 4) == buf[2 + m..2 + m + 4] && Pack(|e.resp|, 4) == buf[at..at + 4];
    SixParts(buf, 2, 2 + m, 2 + m + 4, at, at + 4);
  }

  /** What is wrong with a frame that is not read, exactly: its length, how much of it there is, or its payload. */
  lemma RejectedExactly(input: seq<byte>)
    ensures Read(input) == Err(NoLength) <==> |input| < 4
    ensures |input| >= 4 ==> var total := Unpack(input[..4]);
      && (Read(input) == Err(BadLength) <==> total == 0 || total > MAX_FRAME)
      && (Read(input) == Err(ShortPayload) <==> 0 < total <= MAX_FRAME && |input| < 4 + total)
      && (0 < total <= MAX_FRAME && |input| >= 4 + total ==> Read(input) == Parse(input[4..4 + total]))
  {
  }

  /** And which section of a payload is cut short. */
  lemma CutShortExactly(buf: seq<byte>)
    ensures Parse(buf) == Err(TooShortForMeta) <==> |buf| < 2
    ensures |buf| >= 2 ==> (Parse(buf) == Err(TruncatedAtMeta) <==> |buf| < 6 + Unpack(buf[..2]))
    ensures |buf| >= 2 && |buf| >= 6 + Unpack(buf[..2]) ==>
      var m := Unpack(buf[..2]);
      var q := Unpack(buf[2 + m..6 + m]);
      && (Parse(buf) == Err(TruncatedAtReq) <==> |buf| < 10 + m + q)
      && (Parse(buf) == Err(SizeMismatch) <==>
            |buf| >= 10 + m + q && Unpack(buf[6 + m + q..10 + m + q]) != |buf| - (10 + m + q))
  {
  }

  /** The reader accepts nothing the writer could not have packed. */
  lemma OnlyPackedIsRead(input: seq<byte>)
    requires Read(input).Ok?
    ensures var e, n := Read(input).e, 4 + Unpack(input[..4]);
      n <= |input| && input[..n] == Packed(e) && input == Packed(e) + input[n..]
  {
    var total := Unpack(input[..4]);
    var buf := input[4..4 + total];
    PayloadOfParsed(buf);
    PackUnpack(input[..4]);
    assert input[..4 + total] == input[..4] + buf;
    assert input == input[..4 + total] + input[4 + total..];
  }

  function PackedAll(es: seq<Entry>): seq<byte> {
    if es == [] then [] else Packed(es[0]) + PackedAll(es[1..])
  }

  predicate Sendable(e: Entry) {
    |e.meta| < 0x1_0000 && e.PayloadLength() <= MAX_FRAME
  }

  /** Any sequence of frames on one connection reads back as the same list of entries. */
  method ReadAll(input: seq<byte>, ghost es: seq<Entry>) returns (out: seq<Entry>)
    requires input == PackedAll(es) && forall e :: e in es ==> Sendable(e)
    ensures out == es
  {
    hide Read;
    hide Packed;
    hide Unpack;
    hide Sendable;
    out := [];
    var rest := input;
    ghost var left := es;
    while |rest| > 0
      invariant rest == PackedAll(left) && out + left == es
      invariant forall e :: e in left ==> Sendable(e)
      decreases |left|
    {
      FirstFrame(left);
      var r;
      r, rest := ReadFrame(rest);
      out, left := out + [r.e], left[1..];
    }
    if left != [] {
      FirstFrame(left);
    }
  }

  lemma FirstFrame(es: seq<Entry>)
    requires es != [] && Sendable(es[0])
    ensures |PackedAll(es)| > 4 && Read(PackedAll(es)) == Ok(es[0])
    ensures PackedAll(es)[4 + Unpack(PackedAll(es)[..4])..] == PackedAll(es[1..])
  {
    var first, rest, input := Packed(es[0]), PackedAll(es[1..]), PackedAll(es);
    ReadsBack(es[0], rest);
    PayloadSections(es[0]);
    assert input[..4] == Pack(|Payload(es[0])|, 4);
    UnpackPack(|Payload(es[0])|, 4);
    assert input[|first|..] == rest;
  }
}
