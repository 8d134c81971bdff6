/**
 Response post-processing chunk by chunk: buffered handlers, whole JSON bodies and server-sent events.
 What reaches the client does not depend on how the upstream response was cut into chunks.
 */
module PostProcess {
  import opened LineStream
  import opened Wrappers

  const DEFAULT_MAX_BUFFER := 8 * 1024 * 1024

  // What a handler's call gives: a string, nothing, a value of another type, or an error it raised.
  datatype Result = Text(s: string) | Nothing | NotAString | Raised

  // Fail open: only a string replaces the body.
  function OutputOf(r: Result, body: string): (out: string)
    ensures r == Text(out) || (!r.Text? && out == body)
  {
    if r.Text? then r.s else body
  }

  // ── A buffered handler ──

  class BufferedFilter {
    const cap: nat
    const handler: string -> Result
    var buf: string
    var overflow: bool
    ghost var fed: string
    ghost var sent: string

    ghost predicate Valid()
      reads this
    {
      if overflow then |fed| > cap && sent == fed else buf == fed && |fed| <= cap && sent == ""
    }

    constructor (maxBuffer: Option<nat>, handler: string -> Result)
      ensures Valid() && fed == "" && sent == "" && this.handler == handler
      ensures cap == if maxBuffer.Some? then maxBuffer.value else DEFAULT_MAX_BUFFER
    {
      cap := if maxBuffer.Some? then maxBuffer.value else DEFAULT_MAX_BUFFER;
      this.handler := handler;
      buf, overflow, fed, sent := "", false, "", "";
    }

    /** One output chunk. Over the cap everything held goes out as it is, and so does the rest. */
    method Body(chunk: string, eof: bool) returns (out: string)
      requires Valid()
      modifies this
      ensures fed == old(fed) + chunk && sent == old(sent) + out
      ensures !eof ==> Valid()
      ensures eof ==> sent == if |fed| > cap then fed else OutputOf(handler(fed), fed)
      ensures eof && |fed| <= cap && handler(fed).Text? ==> handler(fed) == Text(sent)
    {
      fed := fed + chunk;
      if overflow {
        out := chunk;
        sent := sent + out;
        return;
      }
      buf := buf + chunk;
      if |buf| > cap {
        overflow := true;
        out := buf;
        buf := "";
      } else {
        out := if eof then OutputOf(handler(buf), buf) else "";
      }
      sent := sent + out;
    }
  }

  /** Any chunking: the handler applied to the whole body, or the identical bytes when it is too long. */
  method RunBuffered(chunks: seq<string>, maxBuffer: Option<nat>, handler: string -> Result) returns (out: string)
    requires chunks != []
    ensures var cap := if maxBuffer.Some? then maxBuffer.value else DEFAULT_MAX_BUFFER;
      && (out == Joined(chunks) || (|Joined(chunks)| <= cap && handler(Joined(chunks)) == Text(out)))
      && (|Joined(chunks)| <= cap && handler(Joined(chunks)).Text? ==> handler(Joined(chunks)) == Text(out))
  {
    var f := new BufferedFilter(maxBuffer, handler);
    out := "";
    var n := |chunks| - 1;
    for i := 0 to n
      invariant f.Valid() && f.fed == Joined(chunks[..i]) && f.sent == out
    {
      JoinedSnoc(chunks, i);
      var piece := f.Body(chunks[i], false);
      out := out + piece;
    }
    JoinedSnoc(chunks, n);
    var piece := f.Body(chunks[n], true);
    out := out + piece;
    assert chunks[..n + 1] == chunks;
  }

  lemma {:induction false} JoinedConcat(a: seq<string>, b: seq<string>)
    ensures Joined(a + b) == Joined(a) + Joined(b)
  {
    if a == [] {
      assert a + b == b;
    } else {
      JoinedConcat(a[1..], b);
      assert (a + b)[1..] == a[1..] + b && (a + b)[0] == a[0];
    }
  }

  lemma JoinedSnoc(chunks: seq<string>, i: nat)
    requires i < |chunks|
    ensures Joined(chunks[..i + 1]) == Joined(chunks[..i]) + chunks[i]
  {
    assert chunks[..i + 1] == chunks[..i] + [chunks[i]];
    JoinedConcat(chunks[..i], [chunks[i]]);
    assert [chunks[i]][1..] == [];
    assert Joined([chunks[i]]) == chunks[i] + "";
  }

  // ── One line of an event stream ──

  predicate Space(c: char) {
    c in " \t\n\r" || c == 11 as char || c == 12 as char
  }

  function TrimLeft(s: string): string {
    if s != "" && Space(s[0]) then TrimLeft(s[1..]) else s
  }

  function TrimRight(s: string): string {
    if s != "" && Space(s[|s| - 1]) then TrimRight(s[..|s| - 1]) else s
  }

  function Ending(line: string): (e: string)
    ensures e in ["", "\n", "\r\n"] && |e| <= |line| && line[|line| - |e|..] == e
    ensures line != "" && line[|line| - 1] == '\n' ==> e != ""
    ensures |line| >= 2 && line[|line| - 2..] == "\r\n" ==> e == "\r\n"
  {
    if line == "" || line[|line| - 1] != '\n' then ""
    else if |line| >= 2 && line[|line| - 2] == '\r' then "\r\n"
    else "\n"
  }

  // The payload of a data line, trimmed; none for any other line.
  function Payload(line: string): Option<string> {
    if |line| >= 5 && line[..5] == "data:" then Some(TrimRight(TrimLeft(line[5..]))) else None
  }

  // `rewriteJson` decodes, normalises and encodes; it gives back its argument when nothing changes.
  function RewriteLine(line: string, rewriteJson: string -> string): string {
    var p := Payload(line);
    if p.None? || p.value == "" || p.value == "[DONE]" then line
    else
      var r := rewriteJson(p.value);
      if r == p.value then line else "data: " + r + Ending(line)
  }

  // No white space at either end.
  predicate Trimmed(s: string) {
    s != "" ==> !Space(s[0]) && !Space(s[|s| - 1])
  }

  predicate Blank(s: string) {
    forall i :: 0 <= i < |s| ==> Space(s[i])
  }

  lemma {:induction false} TrimRightBlank(r: string, e: string)
    requires Blank(e) && (r != "" ==> !Space(r[|r| - 1]))
    ensures TrimRight(r + e) == r
    decreases |e|
  {
    if e == "" {
      assert r + e == r;
    } else {
      var n := |e| - 1;
      assert (r + e)[..|r + e| - 1] == r + e[..n];
      TrimRightBlank(r, e[..n]);
    }
  }

  lemma {:induction false} TrimLeftBlank(e: string)
    requires Blank(e)
    ensures TrimLeft(e) == ""
  {
    if e != "" {
      TrimLeftBlank(e[1..]);
    }
  }

  lemma {:induction false} TrimRightCuts(s: string)
    ensures var r := TrimRight(s);
      |r| <= |s| && s[..|r|] == r && Blank(s[|r|..]) && (r != "" ==> !Space(r[|r| - 1]))
  {
    if s != "" && Space(s[|s| - 1]) {
      var n := |s| - 1;
      TrimRightCuts(s[..n]);
      var r := TrimRight(s[..n]);
      assert s[|r|..] == s[..n][|r|..] + [s[n]];
    }
  }

  lemma {:induction false} TrimLeftCuts(s: string)
    ensures var r := TrimLeft(s);
      |r| <= |s| && s[|s| - |r|..] == r && Blank(s[..|s| - |r|]) && (r != "" ==> !Space(r[0]))
  {
    if s != "" && Space(s[0]) {
      TrimLeftCuts(s[1..]);
      var r := TrimLeft(s[1..]);
      assert s[..|s| - |r|] == [s[0]] + s[1..][..|s| - 1 - |r|];
    }
  }

  lemma CutInPieces(s: string, t: string, p: string)
    requires |t| <= |s| && s[|s| - |t|..] == t && |p| <= |t| && t[..|p|] == p
    ensures s == s[..|s| - |t|] + p + t[|p|..]
  {
    assert t == p + t[|p|..] && s == s[..|s| - |t|] + t;
  }

  // Trimmed on both sides, a text is what is between its blanks.
  lemma TrimmedBetweenBlanks(s: string) returns (a: string, b: string)
    ensures Blank(a) && Blank(b) && s == a + TrimRight(TrimLeft(s)) + b && Trimmed(TrimRight(TrimLeft(s)))
  {
    var t := TrimLeft(s);
    var p := TrimRight(t);
    TrimLeftCuts(s);
    TrimRightCuts(t);
    hide TrimLeft, TrimRight, Space, Blank;
    CutInPieces(s, t, p);
    a, b := s[..|s| - |t|], t[|p|..];
    assert p != "" ==> p[0] == t[0];
  }

  /** The payload of a line: what is between the white space after `data:` and that at its end. */
  lemma PayloadBetweenBlanks(line: string)
    ensures Payload(line).Some? <==> |line| >= 5 && line[..5] == "data:"
    ensures Payload(line).Some? ==> Trimmed(Payload(line).value)
    ensures Payload(line).Some? ==>
      exists a, b :: Blank(a) && Blank(b) && line == "data:" + (a + Payload(line).value + b)
  {
    if Payload(line).Some? {
      var a, b := TrimmedBetweenBlanks(line[5..]);
      hide TrimLeft, TrimRight, Space, Blank;
      assert line == line[..5] + line[5..];
    }
  }

  // What a data line that was rewritten to `r` reads as.
  lemma RewrittenPayload(r: string, e: string)
    requires Trimmed(r) && Blank(e)
    ensures Payload("data: " + r + e) == Some(r)
  {
    var line := "data: " + r + e;
    assert line[..5] == "data:" && line[5..] == " " + (r + e);
    assert (" " + (r + e))[1..] == r + e;
    if r == "" {
      assert r + e == e;
      TrimLeftBlank(e);
    } else {
      var x := r + e;
      assert x[0] == r[0] && TrimLeft(x) == x;
      assert TrimLeft(" " + x) == TrimLeft(x);
      TrimRightBlank(r, e);
    }
  }

  lemma RewrittenEnding(r: string, line: string)
    requires Trimmed(r)
    ensures Ending("data: " + r + Ending(line)) == Ending(line)
  {
    hide Ending;
    var before := "data: " + r;
    assert r == "" ==> before[|before| - 1] == ' ';
    assert r != "" ==> before[|before| - 1] == r[|r| - 1];
    var out := before + Ending(line);
    assert out[|out| - |Ending(line)|..] == Ending(line);
  }

  /**
   A rewritten line is a data line with the rewritten payload and the line ending it had; rewriting it
   again changes nothing if the payload rewrite has that property.
   */
  lemma RewrittenLine(line: string, rewriteJson: string -> string)
    requires Payload(line).Some? && Payload(line).value != "" && Payload(line).value != "[DONE]"
    requires Trimmed(rewriteJson(Payload(line).value))
    ensures rewriteJson(Payload(line).value) != Payload(line).value ==>
      Payload(RewriteLine(line, rewriteJson)) == Some(rewriteJson(Payload(line).value))
      && Ending(RewriteLine(line, rewriteJson)) == Ending(line)
    ensures rewriteJson(rewriteJson(Payload(line).value)) == rewriteJson(Payload(line).value) ==>
      RewriteLine(RewriteLine(line, rewriteJson), rewriteJson) == RewriteLine(line, rewriteJson)
  {
    var r := rewriteJson(Payload(line).value);
    if r != Payload(line).value {
      RewrittenPayload(r, Ending(line));
      RewrittenEnding(r, line);
    }
  }

  /** A line is changed exactly when it is a data line other than the last whose payload the rewrite changes. */
  lemma LineChangesExactly(line: string, rewriteJson: string -> string)
    requires Payload(line).Some? ==> Trimmed(rewriteJson(Payload(line).value))
    ensures RewriteLine(line, rewriteJson) != line
       <==> Payload(line).Some? && Payload(line).value != "" && Payload(line).value != "[DONE]"
            && rewriteJson(Payload(line).value) != Payload(line).value
  {
    if RewriteLine(line, rewriteJson) != "" && Payload(line).Some? {
      RewrittenPayload(rewriteJson(Payload(line).value), Ending(line));
    }
  }

  function LineRewrite(rewriteJson: string -> string): string -> string {
    line => RewriteLine(line, rewriteJson)
  }

  function RewriteLines(lines: seq<string>, f: string -> string): string {
    if lines == [] then "" else RewriteLines(lines[..|lines| - 1], f) + f(lines[|lines| - 1])
  }

  // Where the last, incomplete line begins.
  function TailAt(s: string, from: nat): (at: nat)
    requires from <= |s|
    ensures Cut(s, from, at) && !HasLine(s, at)
    decreases |s| - from
  {
    if !HasLine(s, from) then from else TailAt(s, NextEnd(s, from))
  }

  /** The whole body rewritten line by line, its last half line included. */
  function RewriteWhole(s: string, f: string -> string): string {
    RewriteLines(Lines(s, 0, |s|), f) + f(s[TailAt(s, 0)..])
  }

  lemma RewriteLinesSnoc(lines: seq<string>, line: string, f: string -> string)
    ensures RewriteLines(lines + [line], f) == RewriteLines(lines, f) + f(line)
  {
    assert (lines + [line])[..|lines|] == lines;
  }

  // The last cut is where a position with no line after it is.
  lemma {:induction false} TailIsWhereLinesEnd(s: string, from: nat, at: nat)
    requires Cut(s, from, at) && !HasLine(s, at)
    ensures TailAt(s, from) == at
    decreases |s| - from
  {
    if from < at {
      assert HasLine(s, from);
      TailIsWhereLinesEnd(s, NextEnd(s, from), at);
    }
  }

  // ── vllm_format ──

  // Of everything `fed`, all up to the last line end has been `sent`, rewritten; the rest is `leftover`.
  ghost predicate HoldsBack(fed: string, leftover: string, sent: string, f: string -> string) {
    && |leftover| <= |fed|
    && var at := |fed| - |leftover|;
       Cut(fed, 0, at) && !HasLine(fed, at) && leftover == fed[at..] && sent == RewriteLines(Lines(fed, 0, at), f)
  }

  class VllmFormat {
    const rewriteJson: string -> string
    const rewriteLine: string -> string
    const sse: bool
    const json: bool
    var leftover: string
    var jsonBuf: string
    var jsonOverflow: bool
    ghost var fed: string
    ghost var sent: string

    ghost predicate ValidSse()
      reads this
    {
      sse && !json && HoldsBack(fed, leftover, sent, rewriteLine)
    }

    ghost predicate ValidJson()
      reads this
    {
      && json && !sse
      && if jsonOverflow then |fed| > DEFAULT_MAX_BUFFER && sent == fed
         else jsonBuf == fed && |fed| <= DEFAULT_MAX_BUFFER && sent == ""
    }

    // The media type decides the mode.
    constructor (eventStream: bool, jsonBody: bool, rewriteJson: string -> string)
      ensures sse == eventStream && json == (!eventStream && jsonBody)
      ensures this.rewriteJson == rewriteJson && rewriteLine == LineRewrite(rewriteJson)
      ensures fed == "" && sent == "" && (sse ==> ValidSse()) && (json ==> ValidJson())
    {
      sse, json, this.rewriteJson := eventStream, !eventStream && jsonBody, rewriteJson;
      rewriteLine := LineRewrite(rewriteJson);
      leftover, jsonBuf, jsonOverflow, fed, sent := "", "", false, "", "";
    }

    method BodyJson(chunk: string, eof: bool) returns (out: Option<string>)
      requires ValidJson()
      modifies this`jsonBuf, this`jsonOverflow, this`fed, this`sent
      ensures fed == old(fed) + chunk && sent == old(sent) + if out.Some? then out.value else chunk
      ensures !eof ==> ValidJson()
      ensures eof ==> sent == if |fed| > DEFAULT_MAX_BUFFER then fed else rewriteJson(fed)
    {
      fed := fed + chunk;
      if jsonOverflow {
        sent := sent + chunk;
        return None;
      }
      jsonBuf := jsonBuf + chunk;
      if |jsonBuf| > DEFAULT_MAX_BUFFER {
        jsonOverflow := true;
        out := Some(jsonBuf);
        jsonBuf := "";
      } else {
        out := Some(if eof then rewriteJson(jsonBuf) else "");
      }
      sent := sent + out.value;
    }

    // The complete lines of `pending`, which is what `whole` holds from `held` on.
    method RewritePending(pending: string, ghost whole: string, ghost held: nat) returns (out: string, pos: nat)
      requires Cut(whole, 0, held) && pending == whole[held..]
      ensures pos <= |pending| && Cut(whole, 0, held + pos) && !HasLine(whole, held + pos)
      ensures RewriteLines(Lines(whole, 0, held), rewriteLine) + out == RewriteLines(Lines(whole, 0, held + pos), rewriteLine)
    {
      hide RewriteLines;
      hide Lines;
      out, pos := "", 0;
      ghost var before := RewriteLines(Lines(whole, 0, held), rewriteLine);
      ghost var now := before;
      while HasLine(pending, pos)
        invariant pos <= |pending| && Cut(whole, 0, held + pos)
        invariant now == RewriteLines(Lines(whole, 0, held + pos), rewriteLine)
        invariant before + out == now
        decreases |pending| - pos
      {
        PendingStep(pending, whole, held, pos, rewriteLine);
        var e := NextEnd(pending, pos);
        var piece := rewriteLine(pending[pos..e]);
        AppendAssociative(before, out, piece);
        out, now, pos := out + piece, now + piece, e;
      }
      SuffixEnd(whole, held, pos);
    }

    method Consume(chunk: string) returns (out: string)
      requires ValidSse()
      modifies this`leftover, this`fed, this`sent
      ensures ValidSse() && fed == old(fed) + chunk && sent == old(sent) + out
    {
      ghost var held := |fed| - |leftover|;
      HeldBack(fed, chunk, held);
      var pending := leftover + chunk;
      var pos: nat;
      out, pos := RewritePending(pending, fed + chunk, held);
      HoldsBackAfter(fed + chunk, pending, held, pos, sent + out, rewriteLine);
      fed, sent := fed + chunk, sent + out;
      leftover := pending[pos..];
    }

    /** Complete lines go out rewritten; a half line waits for the next chunk, or goes out at the end. */
    method BodySse(chunk: string, eof: bool) returns (out: string)
      requires ValidSse()
      modifies this`leftover, this`fed, this`sent
      ensures fed == old(fed) + chunk && sent == old(sent) + out
      ensures !eof ==> ValidSse()
      ensures eof ==> sent == RewriteWhole(fed, rewriteLine)
    {
      out := Consume(chunk);
      if eof {
        EndOfStream(fed, |fed| - |leftover|, rewriteLine);
        var last := rewriteLine(leftover);
        AppendAssociative(old(sent), out, last);
        leftover, sent, out := "", sent + last, out + last;
      }
    }
  }

  lemma HoldsBackAfter(whole: string, pending: string, held: nat, pos: nat, sent: string, f: string -> string)
    requires held <= |whole| && pending == whole[held..] && pos <= |pending|
    requires Cut(whole, 0, held + pos) && !HasLine(whole, held + pos)
    requires sent == RewriteLines(Lines(whole, 0, held + pos), f)
    ensures HoldsBack(whole, pending[pos..], sent, f)
  {
    assert pending[pos..] == whole[held + pos..];
  }

  lemma HeldBack(fed: string, chunk: string, held: nat)
    requires Cut(fed, 0, held)
    ensures Cut(fed + chunk, 0, held) && (fed + chunk)[held..] == fed[held..] + chunk
    ensures Lines(fed + chunk, 0, held) == Lines(fed, 0, held)
  {
    LinesStay(fed, chunk, 0, held);
  }

  // The next line of a suffix is the next line of the whole.
  lemma SuffixLine(pending: string, whole: string, held: nat, pos: nat)
    requires held <= |whole| && pending == whole[held..] && pos <= |pending| && HasLine(pending, pos)
    ensures NextEnd(whole, held + pos) == held + NextEnd(pending, pos)
    ensures pending[pos..NextEnd(pending, pos)] == whole[held + pos..held + NextEnd(pending, pos)]
  {
    SuffixEnd(whole, held, pos);
  }

  lemma LineStep(whole: string, at: nat, f: string -> string)
    requires Cut(whole, 0, at) && HasLine(whole, at)
    ensures var e := NextEnd(whole, at);
      Cut(whole, 0, e) && RewriteLines(Lines(whole, 0, e), f) == RewriteLines(Lines(whole, 0, at), f) + f(whole[at..e])
  {
    var e := NextEnd(whole, at);
    OneMoreLine(whole, 0, at);
    RewriteLinesSnoc(Lines(whole, 0, at), whole[at..e], f);
  }

  lemma PendingStep(pending: string, whole: string, held: nat, pos: nat, f: string -> string)
    requires held <= |whole| && pending == whole[held..] && pos <= |pending|
    requires Cut(whole, 0, held + pos) && HasLine(pending, pos)
    ensures var e := NextEnd(pending, pos);
      && Cut(whole, 0, held + e)
      && RewriteLines(Lines(whole, 0, held + e), f) == RewriteLines(Lines(whole, 0, held + pos), f) + f(pending[pos..e])
  {
    hide RewriteLines;
    hide Lines;
    hide NextEnd;
    SuffixLine(pending, whole, held, pos);
    LineStep(whole, held + pos, f);
  }

  lemma EndOfStream(whole: string, at: nat, f: string -> string)
    requires Cut(whole, 0, at) && !HasLine(whole, at)
    ensures RewriteWhole(whole, f) == RewriteLines(Lines(whole, 0, at), f) + f(whole[at..])
  {
    TailIsWhereLinesEnd(whole, 0, at);
    NoMoreLines(whole, 0, at);
  }

  // Positions in a suffix are positions in the whole, shifted.
  lemma {:induction false} SuffixEnd(s: string, at: nat, i: nat)
    requires at <= |s| && i <= |s| - at
    ensures NextEnd(s, at + i) == at + NextEnd(s[at..], i)
    decreases |s| - at - i
  {
    if at + i < |s| && s[at + i] != '\n' {
      SuffixEnd(s, at, i + 1);
    }
  }

  /** Any chunking of an event stream gives the line-by-line rewrite of the whole. */
  method RunSse(chunks: seq<string>, rewriteJson: string -> string) returns (out: string)
    requires chunks != []
    ensures out == RewriteWhole(Joined(chunks), LineRewrite(rewriteJson))
  {
    var f := new VllmFormat(true, false, rewriteJson);
    out := "";
    var n := |chunks| - 1;
    for i := 0 to n
      invariant f.ValidSse() && f.fed == Joined(chunks[..i]) && f.sent == out
    {
      JoinedSnoc(chunks, i);
      var piece := f.BodySse(chunks[i], false);
      out := out + piece;
    }
    JoinedSnoc(chunks, n);
    var piece := f.BodySse(chunks[n], true);
    out := out + piece;
    assert chunks[..n + 1] == chunks;
  }

  /** Any chunking of a JSON body gives the rewrite of the whole, or the identical bytes over the cap. */
  method RunJson(chunks: seq<string>, rewriteJson: string -> string) returns (out: string)
    requires chunks != []
    ensures out == if |Joined(chunks)| > DEFAULT_MAX_BUFFER then Joined(chunks) else rewriteJson(Joined(chunks))
  {
    var f := new VllmFormat(false, true, rewriteJson);
    out := "";
    var n := |chunks| - 1;
    for i := 0 to n
      invariant f.ValidJson() && f.fed == Joined(chunks[..i]) && f.sent == out
    {
      JoinedSnoc(chunks, i);
      var piece := f.BodyJson(chunks[i], false);
      out := out + if piece.Some? then piece.value else chunks[i];
    }
    JoinedSnoc(chunks, n);
    var piece := f.BodyJson(chunks[n], true);
    out := out + if piece.Some? then piece.value else chunks[n];
    assert chunks[..n + 1] == chunks;
  }

  // ── The rewritten stream, line by line ──

  // A line with its newline and no other.
  predicate Whole(l: string) {
    l != "" && l[|l| - 1] == '\n' && forall i :: 0 <= i < |l| - 1 ==> l[i] != '\n'
  }

  predicate KeepsLines(f: string -> string, l: string) {
    (Whole(l) ==> Whole(f(l))) && ('\n' !in l ==> '\n' !in f(l))
  }

  function Mapped(lines: seq<string>, f: string -> string): (r: seq<string>)
    ensures |r| == |lines| && forall i :: 0 <= i < |r| ==> r[i] == f(lines[i])
  {
    seq(|lines|, i requires 0 <= i < |lines| => f(lines[i]))
  }

  lemma {:induction false} RewriteIsMapped(lines: seq<string>, f: string -> string)
    ensures RewriteLines(lines, f) == Joined(Mapped(lines, f))
  {
    if lines != [] {
      var n := |lines| - 1;
      RewriteIsMapped(lines[..n], f);
      var m := Mapped(lines, f);
      assert m[..n] == Mapped(lines[..n], f) && m[..n + 1] == m;
      JoinedSnoc(m, n);
    }
  }

  // The lines of a stretch are whole, and what follows the last of them has no newline.
  lemma {:induction false} LinesAreWhole(s: string, from: nat)
    requires from <= |s|
    ensures forall l :: l in Lines(s, from, |s|) ==> Whole(l)
    ensures '\n' !in s[TailAt(s, from)..]
    decreases |s| - from
  {
    if HasLine(s, from) {
      LinesAreWhole(s, NextEnd(s, from));
    }
  }

  lemma FirstLine(before: string, l: string, after: string)
    requires Whole(l)
    ensures var s := before + l + after; NextEnd(s, |before|) == |before + l| && s[|before|..|before + l|] == l
  {
    var s := before + l + after;
    assert s[|before|..|before + l|] == l;
    assert forall i :: |before| <= i < |before + l| ==> s[i] == l[i - |before|];
  }

  lemma NoLineLeft(before: string, tail: string)
    requires '\n' !in tail
    ensures !HasLine(before + tail, |before|)
  {
  }

  lemma LinesFrom(s: string, from: nat, e: nat)
    requires from <= |s| && HasLine(s, from) && NextEnd(s, from) == e
    ensures Lines(s, from, |s|) == [s[from..e]] + Lines(s, e, |s|) && TailAt(s, from) == TailAt(s, e)
  {
  }

  // Whole lines one after the other are the lines of their text.
  lemma {:induction false} LinesOfJoined(before: string, lines: seq<string>, tail: string)
    requires (forall l :: l in lines ==> Whole(l)) && '\n' !in tail
    ensures var s := before + Joined(lines) + tail;
      Lines(s, |before|, |s|) == lines && TailAt(s, |before|) == |before + Joined(lines)|
    decreases |lines|
  {
    var s := before + Joined(lines) + tail;
    if lines == [] {
      assert s == before + tail;
      NoLineLeft(before, tail);
    } else {
      var l, rest := lines[0], Joined(lines[1..]);
      assert Joined(lines) == l + rest && l in lines && lines == [l] + lines[1..];
      hide Joined;
      hide Lines;
      hide TailAt;
      assert s == before + l + (rest + tail) && s == (before + l) + rest + tail;
      FirstLine(before, l, rest + tail);
      LinesOfJoined(before + l, lines[1..], tail);
      LinesFrom(s, |before|, |before + l|);
    }
  }

  lemma MappedAreWhole(lines: seq<string>, f: string -> string)
    requires forall l :: l in lines ==> Whole(l) && KeepsLines(f, l)
    ensures forall l :: l in Mapped(lines, f) ==> Whole(l)
  {
    forall i | 0 <= i < |lines|
      ensures Whole(Mapped(lines, f)[i])
    {
      assert lines[i] in lines;
    }
  }

  // What a rewrite that keeps lines does: it rewrites each line in its place.
  lemma RewrittenLines(s: string, f: string -> string)
    requires forall l :: l in Lines(s, 0, |s|) ==> KeepsLines(f, l)
    requires KeepsLines(f, s[TailAt(s, 0)..])
    ensures var out := RewriteWhole(s, f);
      Lines(out, 0, |out|) == Mapped(Lines(s, 0, |s|), f) && out[TailAt(out, 0)..] == f(s[TailAt(s, 0)..])
  {
    var lines, tail := Mapped(Lines(s, 0, |s|), f), f(s[TailAt(s, 0)..]);
    LinesAreWhole(s, 0);
    RewriteIsMapped(Lines(s, 0, |s|), f);
    MappedAreWhole(Lines(s, 0, |s|), f);
    hide Lines;
    hide RewriteLines;
    LinesOfJoined("", lines, tail);
    assert "" + Joined(lines) == Joined(lines);
  }

  lemma WholeText(s: string)
    ensures s == Joined(Lines(s, 0, |s|)) + s[TailAt(s, 0)..]
  {
    hide Lines;
    hide Joined;
    var at := TailAt(s, 0);
    NoMoreLines(s, 0, at);
    LinesCover(s, 0, at);
    assert s == s[0..at] + s[at..];
  }

  // The rewrite of a line adds no newline and takes none away.
  predicate OneLine(rewriteJson: string -> string, p: string) {
    rewriteJson(p) != p ==> '\n' !in rewriteJson(p)
  }

  lemma LineRewriteKeepsLines(rewriteJson: string -> string, l: string)
    requires Whole(l) || '\n' !in l
    requires Payload(l).Some? ==> OneLine(rewriteJson, Payload(l).value)
    ensures KeepsLines(LineRewrite(rewriteJson), l)
  {
    var out := RewriteLine(l, rewriteJson);
    if out != l {
      var r := rewriteJson(Payload(l).value);
      assert out == "data: " + r + Ending(l);
      assert '\n' !in "data: " + r;
    }
  }

  ghost predicate AllOneLine(rewriteJson: string -> string) {
    forall p :: OneLine(rewriteJson, p)
  }

  lemma StreamKeepsLines(s: string, rewriteJson: string -> string)
    requires AllOneLine(rewriteJson)
    ensures forall l :: l in Lines(s, 0, |s|) ==> KeepsLines(LineRewrite(rewriteJson), l)
    ensures KeepsLines(LineRewrite(rewriteJson), s[TailAt(s, 0)..])
  {
    LinesAreWhole(s, 0);
    forall l | Whole(l) || '\n' !in l
      ensures KeepsLines(LineRewrite(rewriteJson), l)
    {
      if Payload(l).Some? {
        assert OneLine(rewriteJson, Payload(l).value);
      }
      LineRewriteKeepsLines(rewriteJson, l);
    }
  }

  // No line of the stream, the half line included, is changed.
  ghost predicate Untouched(s: string, f: string -> string) {
    (forall l :: l in Lines(s, 0, |s|) ==> f(l) == l) && f(s[TailAt(s, 0)..]) == s[TailAt(s, 0)..]
  }

  /** A stream none of whose own frames needs a change comes out byte for byte. */
  lemma UnchangedIsIdentical(s: string, f: string -> string)
    requires Untouched(s, f)
    ensures RewriteWhole(s, f) == s
  {
    RewriteIsMapped(Lines(s, 0, |s|), f);
    assert Mapped(Lines(s, 0, |s|), f) == Lines(s, 0, |s|);
    WholeText(s);
  }

  /** And only then, since a frame is rewritten to one line. */
  lemma IdenticalExactlyUntouched(s: string, rewriteJson: string -> string)
    requires AllOneLine(rewriteJson)
    ensures RewriteWhole(s, LineRewrite(rewriteJson)) == s <==> Untouched(s, LineRewrite(rewriteJson))
  {
    var f := LineRewrite(rewriteJson);
    if RewriteWhole(s, f) == s {
      StreamKeepsLines(s, rewriteJson);
      RewrittenLines(s, f);
      var lines := Lines(s, 0, |s|);
      assert forall i :: 0 <= i < |lines| ==> f(lines[i]) == lines[i];
    } else {
      if Untouched(s, f) {
        UnchangedIsIdentical(s, f);
      }
    }
  }

  // A payload rewrite gives trimmed text, and rewriting that gives it back.
  predicate Settles(rewriteJson: string -> string, p: string) {
    && (rewriteJson(p) != p ==> Trimmed(rewriteJson(p)))
    && rewriteJson(rewriteJson(p)) == rewriteJson(p)
  }

  lemma RewrittenLineOnce(line: string, rewriteJson: string -> string)
    requires Payload(line).Some? ==> Settles(rewriteJson, Payload(line).value)
    ensures RewriteLine(RewriteLine(line, rewriteJson), rewriteJson) == RewriteLine(line, rewriteJson)
  {
    if RewriteLine(line, rewriteJson) != line {
      RewrittenLine(line, rewriteJson);
    }
  }

  /** Rewriting a rewritten stream changes nothing. */
  lemma StreamRewrittenOnce(s: string, rewriteJson: string -> string)
    requires AllOneLine(rewriteJson) && forall p :: Settles(rewriteJson, p)
    ensures var f := LineRewrite(rewriteJson); RewriteWhole(RewriteWhole(s, f), f) == RewriteWhole(s, f)
  {
    var f := LineRewrite(rewriteJson);
    var out, lines, tail := RewriteWhole(s, f), Lines(s, 0, |s|), s[TailAt(s, 0)..];
    StreamKeepsLines(s, rewriteJson);
    RewrittenLines(s, f);
    forall l
      ensures f(f(l)) == f(l)
    {
      if Payload(l).Some? {
        assert Settles(rewriteJson, Payload(l).value);
      }
      RewrittenLineOnce(l, rewriteJson);
    }
    forall l | l in Lines(out, 0, |out|)
      ensures f(l) == l
    {
      var i :| 0 <= i < |lines| && f(lines[i]) == l;
    }
    UnchangedIsIdentical(out, f);
  }
}
