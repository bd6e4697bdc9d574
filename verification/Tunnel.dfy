/** The tunnel client: local responses streamed back in chunks, any number of requests at once. */
module Tunnel {
  import opened Text

  const CHUNK: nat := 32768

  // ----- the local response body

  /** How a body ends: cleanly; cut short, which net/http reports as io.ErrUnexpectedEOF; or with another error. */
  datatype End = Eof | Truncated | Broken

  /** A body and how its reads go: `cuts` bounds the reads one by one (zero for an empty read), `eager` says
      whether the end is reported with the last data or only by a read of its own. */
  datatype Body = Body(content: string, end: End, cuts: seq<nat>, eager: bool)

  function ReadSize(b: Body, k: nat): (n: nat)
    ensures n <= k && n <= |b.content|
  {
    var m := if k < |b.content| then k else |b.content|;
    if b.cuts != [] && b.cuts[0] < m then b.cuts[0] else m
  }

  function ReadError(b: Body, k: nat): Option<End> {
    var n := ReadSize(b, k);
    if b.content == [] || (n > 0 && n == |b.content| && b.eager) then Some(b.end) else None
  }

  function Drop<T>(xs: seq<T>): seq<T> { if xs == [] then [] else xs[1..] }

  function AfterRead(b: Body, k: nat): Body {
    b.(content := b.content[ReadSize(b, k)..], cuts := Drop(b.cuts))
  }

  function Measure(b: Body): nat { |b.content| + |b.cuts| }

  /** io.Reader: reads into the buffer from an offset, leaving what is before it alone. */
  method Read(b: Body, buf: array<char>, off: nat) returns (n: nat, err: Option<End>, rest: Body)
    requires off < buf.Length
    modifies buf
    ensures off + n <= buf.Length && buf[..off] == old(buf[..off]) && buf[off..off + n] + rest.content == b.content
    ensures rest.end == b.end
    ensures err.Some? ==> err.value == b.end && rest.content == []
    ensures err.None? ==> Measure(rest) < Measure(b)
  {
    var k := buf.Length - off;
    n, err, rest := ReadSize(b, k), ReadError(b, k), AfterRead(b, k);
    for i := 0 to n
      invariant buf[..off] == old(buf[..off]) && buf[off..off + i] == b.content[..i]
    {
      buf[off + i] := b.content[i];
      assert b.content[..i + 1] == b.content[..i] + [b.content[i]];
      assert buf[off..off + i + 1] == buf[off..off + i] + [buf[off + i]];
    }
    assert b.content[..n] + b.content[n..] == b.content;
  }

  /** One more read into a buffer that already holds the beginning of the whole. */
  method ReadMore(b: Body, buf: array<char>, off: nat, ghost whole: string)
    returns (n: nat, err: Option<End>, rest: Body)
    requires off < buf.Length && buf[..off] + b.content == whole
    modifies buf
    ensures n <= buf.Length && buf[..n] + rest.content == whole && rest.end == b.end
    ensures err.Some? ==> err.value == b.end && rest.content == []
    ensures err.None? ==> Measure(rest) < Measure(b)
  {
    var nn;
    nn, err, rest := Read(b, buf, off);
    n := off + nn;
    Joined(buf[..], off, n, b.content, rest.content, whole);
    assert buf[..][..n] == buf[..n] && buf[..][..off] == buf[..off] && buf[..][off..n] == buf[off..n];
  }

  datatype FullError = FullOk | FullEof | FullUnexpectedEof | FullBroken

  function ShortRead(end: End, n: nat): FullError {
    match end
    case Broken => FullBroken
    case Truncated => FullUnexpectedEof
    case Eof => if n == 0 then FullEof else FullUnexpectedEof
  }

  /** io.ReadFull: reads until the buffer is full or the body reports its end. A clean end after some bytes and the
      body's own io.ErrUnexpectedEOF come out as the same error. */
  method ReadFull(b: Body, buf: array<char>) returns (n: nat, err: FullError, rest: Body)
    requires buf.Length > 0
    modifies buf
    ensures n <= buf.Length && buf[..n] + rest.content == b.content && rest.end == b.end
    ensures err == FullOk <==> n == buf.Length
    ensures n < buf.Length ==> rest.content == []
    ensures n < buf.Length ==> err == ShortRead(b.end, n)
  {
    n, rest := 0, b;
    var readErr: Option<End> := None;
    while n < buf.Length && readErr.None?
      invariant n <= buf.Length && buf[..n] + rest.content == b.content && rest.end == b.end
      invariant readErr.Some? ==> readErr.value == b.end && rest.content == []
      decreases readErr.None?, Measure(rest)
    {
      n, readErr, rest := ReadMore(rest, buf, n, b.content);
    }
    if n == buf.Length { return n, FullOk, rest; }
    if readErr.value == Broken { return n, FullBroken, rest; }
    if n > 0 && readErr.value == Eof { return n, FullUnexpectedEof, rest; }
    return n, if readErr.value == Eof then FullEof else FullUnexpectedEof, rest;
  }

  lemma Joined(buf: string, n0: nat, n: nat, before: string, after: string, whole: string)
    requires n0 <= n <= |buf|
    requires buf[..n0] + before == whole
    requires buf[n0..n] + after == before
    ensures buf[..n] + after == whole
  {
    assert buf[..n] == buf[..n0] + buf[n0..n];
  }

  // ----- frames

  datatype Frame =
    | Head(id: string, status: int, body: string, more: bool)
    | Chunk(id: string, data: string, last: bool)

  function Data(f: Frame): string { if f.Head? then f.body else f.data }
  predicate Final(f: Frame) { if f.Head? then !f.more else f.last }

  /** What the receiver joins together for one request. */
  function Reassembled(fs: seq<Frame>): string {
    if fs == [] then "" else Reassembled(fs[..|fs| - 1]) + Data(fs[|fs| - 1])
  }

  ghost predicate AllFor(fs: seq<Frame>, id: string) { forall i :: 0 <= i < |fs| ==> fs[i].id == id }

  /** One header first, chunks after it; the last frame and no other is final. */
  ghost predicate Complete(fs: seq<Frame>) {
    && fs != [] && fs[0].Head?
    && (forall i :: 0 < i < |fs| ==> fs[i].Chunk?)
    && (forall i :: 0 <= i < |fs| ==> (Final(fs[i]) <==> i == |fs| - 1))
  }

  ghost predicate Bounded(fs: seq<Frame>) { forall i :: 0 <= i < |fs| ==> |Data(fs[i])| <= CHUNK }

  lemma ReassembledPush(fs: seq<Frame>, f: Frame)
    ensures Reassembled(fs + [f]) == Reassembled(fs) + Data(f)
  {
    assert (fs + [f])[..|fs|] == fs;
  }

  /** What became of a tunnelled request at the local service. */
  datatype Attempt = BadRequest(text: string) | Unreachable | Response(status: int, body: Body)

  predicate Delivered(a: Attempt) {
    a.Response? && (a.body.end != Broken || |a.body.content| >= CHUNK)
  }

  const READ_FAILED := "error reading local response body"

  function ErrorFrame(id: string, a: Attempt): Frame {
    match a
    case BadRequest(text) => Head(id, 500, "failed to create request: " + text, false)
    case Unreachable => Head(id, 502, "local service unavailable", false)
    case Response(_, _) => Head(id, 502, READ_FAILED, false)
  }

  /** The answer to one request: the bytes the body yielded, inline if they do not fill a chunk and behind a header
      that announces more if they do, or one error frame. */
  ghost predicate Answers(frames: seq<Frame>, id: string, a: Attempt) {
    && AllFor(frames, id) && Complete(frames)
    && (!Delivered(a) ==> frames == [ErrorFrame(id, a)])
    && (Delivered(a) ==>
          && frames[0].status == a.status && Reassembled(frames) == a.body.content && Bounded(frames)
          && (|frames| == 1 <==> |a.body.content| < CHUNK))
  }

  /** The frames one request sends, whatever the reads looked like. A body that breaks within the first chunk sends
      one error frame, unless the break is a truncation; one that breaks later sends exactly what was read. */
  method HandleAndStream(id: string, a: Attempt) returns (frames: seq<Frame>)
    ensures Answers(frames, id, a)
  {
    if !a.Response? { return [ErrorFrame(id, a)]; }
    var buf := new char[CHUNK];
    var n, readErr, rest := ReadFull(a.body, buf);
    if readErr == FullBroken { return [ErrorFrame(id, a)]; }
    if readErr == FullEof || readErr == FullUnexpectedEof || n < CHUNK {
      frames := [Head(id, a.status, buf[..n], false)];
      assert frames[..0] == [] && buf[..n] + rest.content == buf[..n];
      return;
    }
    var head := Head(id, a.status, buf[..n], true);
    assert [head][..0] == [];
    frames := StreamRest(id, a, buf, rest, head);
  }

  /** The read loop after a full first chunk, reusing the buffer. */
  method StreamRest(id: string, a: Attempt, buf: array<char>, body: Body, head: Frame) returns (frames: seq<Frame>)
    requires a.Response? && buf.Length == CHUNK && Streaming([head], id, a.status)
    requires Reassembled([head]) + body.content == a.body.content
    modifies buf
    ensures AllFor(frames, id) && Complete(frames) && Bounded(frames) && |frames| > 1
    ensures frames[0].status == a.status && Reassembled(frames) == a.body.content
  {
    var rest := body;
    frames := [head];
    while true
      invariant Streaming(frames, id, a.status) && Reassembled(frames) + rest.content == a.body.content
      decreases Measure(rest)
    {
      ghost var rest0 := rest;
      var m, err;
      m, err, rest := Read(rest, buf, 0);
      assert buf[0..m] == buf[..m];
      if m > 0 {
        var isLast := err == Some(Eof);
        Extends(frames, Chunk(id, buf[..m], isLast), rest0.content, rest.content, a.body.content);
        ChunkSent(frames, Chunk(id, buf[..m], isLast), id, a.status);
        frames := frames + [Chunk(id, buf[..m], isLast)];
        if isLast { return; }
      } else {
        assert rest.content == rest0.content;
      }
      if err.Some? {
        Extends(frames, Chunk(id, "", true), rest.content, rest.content, a.body.content);
        ChunkSent(frames, Chunk(id, "", true), id, a.status);
        frames := frames + [Chunk(id, "", true)];
        return;
      }
    }
  }

  ghost predicate Streaming(fs: seq<Frame>, id: string, status: int) {
    && AllFor(fs, id) && fs != [] && fs[0].Head? && fs[0].status == status
    && (forall i :: 0 < i < |fs| ==> fs[i].Chunk?)
    && (forall i :: 0 <= i < |fs| ==> !Final(fs[i])) && Bounded(fs)
  }

  lemma Extends(fs: seq<Frame>, f: Frame, before: string, after: string, whole: string)
    requires Reassembled(fs) + before == whole && Data(f) + after == before
    ensures Reassembled(fs + [f]) + after == whole
    ensures after == [] ==> Reassembled(fs + [f]) == whole
  {
    ReassembledPush(fs, f);
    Regroup(Reassembled(fs), Data(f), after);
    if after == [] { assert Reassembled(fs + [f]) + after == Reassembled(fs + [f]); }
  }

  lemma ChunkSent(fs: seq<Frame>, f: Frame, id: string, status: int)
    requires Streaming(fs, id, status) && f.Chunk? && f.id == id && |f.data| <= CHUNK
    ensures !f.last ==> Streaming(fs + [f], id, status)
    ensures f.last ==> AllFor(fs + [f], id) && Complete(fs + [f]) && Bounded(fs + [f]) && (fs + [f])[0].status == status
  {
  }

  // ----- a response that did not end cleanly

  /** The body of a one-frame answer is in that frame. */
  lemma OneFrame(frames: seq<Frame>, id: string, a: Attempt)
    requires Answers(frames, id, a) && Delivered(a) && |a.body.content| < CHUNK
    ensures frames == [Head(id, a.status, a.body.content, false)]
  {
    var f := frames[0];
    assert frames == [] + [f] && Reassembled([]) == "";
    ReassembledPush([], f);
    assert "" + Data(f) == Data(f);
    assert Final(f) && f.Head? && f.id == id;
  }

  function EndedCleanly(a: Attempt): Attempt
    requires a.Response?
  {
    a.(body := a.body.(end := Eof))
  }

  predicate IsReadFailure(a: Attempt) { a.Response? && a.status == 502 && a.body.content == READ_FAILED }

  /** Exactly when the answer to a response could be the answer to the same response ended cleanly, so that the
      receiver takes it for complete: always when it is delivered, that is unless it broke within the first chunk
      other than by truncation. (A service may also send the text of the error frame itself.) */
  lemma PassesForCompleteExactly(frames: seq<Frame>, id: string, a: Attempt)
    requires Answers(frames, id, a) && a.Response?
    ensures Answers(frames, id, EndedCleanly(a)) <==> Delivered(a) || IsReadFailure(a)
  {
    var clean := EndedCleanly(a);
    if !Delivered(a) {
      assert frames == [Head(id, 502, READ_FAILED, false)] && frames[..0] == [] && Reassembled([]) == "";
      assert Reassembled(frames) == "" + READ_FAILED == READ_FAILED;
      if Answers(frames, id, clean) { OneFrame(frames, id, clean); }
    }
  }

  /** So no receiver can tell how a delivered response ended: whatever answers it answers it with any other end that
      is delivered, be the break within the first chunk or after it. */
  lemma EndIsInvisible(frames: seq<Frame>, id: string, a: Attempt, end: End)
    requires Delivered(a) && Delivered(a.(body := a.body.(end := end)))
    ensures Answers(frames, id, a) <==> Answers(frames, id, a.(body := a.body.(end := end)))
  {
  }

  /** A short response truncated and the same response whole send the very same frame. */
  lemma TruncationIsInvisible(id: string, status: int, content: string, cuts: seq<nat>, eager: bool,
                              frames: seq<Frame>, whole: seq<Frame>)
    requires |content| < CHUNK
    requires Answers(frames, id, Response(status, Body(content, Truncated, cuts, eager)))
    requires Answers(whole, id, Response(status, Body(content, Eof, cuts, eager)))
    ensures frames == whole
  {
    OneFrame(frames, id, Response(status, Body(content, Truncated, cuts, eager)));
    OneFrame(whole, id, Response(status, Body(content, Eof, cuts, eager)));
  }

  /** A body that breaks right after its first chunk is closed like a whole one. */
  lemma LateBreakIsASuccess(id: string, content: string)
    requires |content| == CHUNK
    ensures Answers([Head(id, 200, content, true), Chunk(id, "", true)], id,
                    Response(200, Body(content, Broken, [], false)))
  {
    var head, last := Head(id, 200, content, true), Chunk(id, "", true);
    assert [head, last] == [head] + [last] && [head] == [] + [head];
    assert Reassembled([]) == "";
    ReassembledPush([], head);
    ReassembledPush([head], last);
    assert ("" + content) + "" == content;
  }

  /** Such an answer exists: a promised body of which nothing arrived is sent as an empty success. */
  lemma EmptyTruncationIsASuccess(id: string)
    ensures Answers([Head(id, 200, "", false)], id, Response(200, Body("", Truncated, [], false)))
  {
    assert [Head(id, 200, "", false)][..0] == [];
    assert Reassembled([]) == "";
  }

  // ----- many requests on one stream

  /** The frames of one request, in stream order. */
  function Demux(stream: seq<Frame>, id: string): (r: seq<Frame>)
    ensures AllFor(r, id)
  {
    if stream == [] then [] else (if stream[0].id == id then [stream[0]] else []) + Demux(stream[1..], id)
  }

  /** Each turn the scheduler lets one request send its next frame; the mutex makes a send atomic. */
  function Interleave(parts: map<string, seq<Frame>>, turns: seq<string>): (r: (seq<Frame>, map<string, seq<Frame>>))
    ensures r.1.Keys == parts.Keys
    decreases |turns|
  {
    if turns == [] then ([], parts)
    else
      var id := turns[0];
      if id !in parts || parts[id] == [] then Interleave(parts, turns[1..])
      else
        var (stream, left) := Interleave(parts[id := parts[id][1..]], turns[1..]);
        ([parts[id][0]] + stream, left)
  }

  /** However the sends interleave, each request's frames come out in order and none are mixed up. */
  lemma {:induction false} DemuxRestores(parts: map<string, seq<Frame>>, turns: seq<string>, id: string)
    requires id in parts && forall k :: k in parts ==> AllFor(parts[k], k)
    ensures var (stream, left) := Interleave(parts, turns); Demux(stream, id) + left[id] == parts[id]
    decreases |turns|
  {
    if turns != [] {
      var k := turns[0];
      if k !in parts || parts[k] == [] {
        DemuxRestores(parts, turns[1..], id);
      } else {
        var parts' := parts[k := parts[k][1..]];
        DemuxRestores(parts', turns[1..], id);
        var (stream', left) := Interleave(parts', turns[1..]);
        var stream := [parts[k][0]] + stream';
        assert stream[1..] == stream';
        assert Interleave(parts, turns) == (stream, left);
        if k == id {
          assert parts[id] == [parts[id][0]] + parts[id][1..];
          assert Demux(stream, id) == [parts[id][0]] + Demux(stream', id);
        } else {
          assert Demux(stream, id) == [] + Demux(stream', id);
        }
      }
    }
  }

  ghost predicate Sends(parts: map<string, seq<Frame>>, attempts: map<string, Attempt>) {
    && parts.Keys == attempts.Keys
    && forall id :: id in attempts ==> Answers(parts[id], id, attempts[id])
  }

  /** Once every request has sent its frames, demultiplexing by id gives each answer whole, with one final frame
      and nothing after it; which responses pass for complete is exact here too. */
  lemma EveryBodyArrives(attempts: map<string, Attempt>, parts: map<string, seq<Frame>>, turns: seq<string>, id: string)
    requires Sends(parts, attempts) && id in attempts && Interleave(parts, turns).1[id] == []
    ensures var got := Demux(Interleave(parts, turns).0, id);
            var a := attempts[id];
            && Answers(got, id, a)
            && (a.Response? ==> (Answers(got, id, EndedCleanly(a)) <==> Delivered(a) || IsReadFailure(a)))
  {
    DemuxRestores(parts, turns, id);
    var (stream, left) := Interleave(parts, turns);
    assert Demux(stream, id) + left[id] == Demux(stream, id);
    var a := attempts[id];
    if a.Response? { PassesForCompleteExactly(Demux(stream, id), id, a); }
  }

  /** At any moment before that, what arrived is the beginning of it, and final only if it is all of it. */
  lemma EveryPrefixIsSound(attempts: map<string, Attempt>, parts: map<string, seq<Frame>>,
                           turns: seq<string>, id: string)
    requires Sends(parts, attempts) && id in attempts
    ensures var (stream, left) := Interleave(parts, turns);
            var got := Demux(stream, id);
            && got <= parts[id]
            && forall i :: 0 <= i < |got| && Final(got[i]) ==> i == |got| - 1 && left[id] == []
  {
    DemuxRestores(parts, turns, id);
    var (stream, left) := Interleave(parts, turns);
    var got := Demux(stream, id);
    forall i | 0 <= i < |got| && Final(got[i]) ensures i == |got| - 1 && left[id] == [] {
      assert parts[id][i] == got[i];
    }
  }
}
