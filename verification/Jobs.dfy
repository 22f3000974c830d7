/**
 One job end to end: handleJob on the worker (internal/worker/daemon.go) turns
 the reads of an engine response into frames, and the two response writers of the
 router (internal/router/server.go) turn frames back into bytes and one audit
 status.
 */
module Jobs {
  import opened Seqs
  import opened Wire

  const BUFFER_SIZE: nat := 4096
  const STATUS_OK: int := 200
  const STATUS_BAD_GATEWAY: int := 502

  // ---------- the worker side ----------

  datatype ReadError = NoError | EndOfFile | Failure(msg: seq<byte>)

  /** One Read of the engine body: data may come together with an error. */
  datatype Read = Read(data: seq<byte>, err: ReadError)

  /** engine.Proxy fails, or yields a body that answers reads from a script; a
      script that ends without an error leaves the job blocked in Read. */
  datatype Proxied = Refused(msg: seq<byte>) | Body(script: seq<Read>)

  /** io.Reader never returns more than the buffer holds. */
  ghost predicate FitsBuffer(p: Proxied) {
    p.Body? ==> forall i :: 0 <= i < |p.script| ==> |p.script[i].data| <= BUFFER_SIZE
  }

  /** The bytes read up to and including the first read with an error. */
  function BytesRead(script: seq<Read>): seq<byte> {
    if script == [] then []
    else script[0].data + if script[0].err.NoError? then BytesRead(script[1..]) else []
  }

  /** The error that ends the reads, if the script has one. */
  function EndOf(script: seq<Read>): ReadError {
    if script == [] then NoError
    else if script[0].err.NoError? then EndOf(script[1..]) else script[0].err
  }

  /** The data of the reads, in order. */
  function Datas(script: seq<Read>): seq<seq<byte>> {
    seq(|script|, i requires 0 <= i < |script| => script[i].data)
  }

  /** Read k is the first that comes with an error. */
  ghost predicate FirstError(script: seq<Read>, k: nat) {
    k < |script| && !script[k].err.NoError? && forall i :: 0 <= i < k ==> script[i].err.NoError?
  }

  lemma DatasCons(rd: Read, script: seq<Read>)
    ensures Flatten(Datas([rd] + script)) == rd.data + Flatten(Datas(script))
  {
    assert Datas([rd] + script) == [rd.data] + Datas(script);
  }

  /** The bytes read are the data of every read up to the first one with an error,
      that one included; and that error is how the reads end. */
  lemma {:induction false} BytesReadMeaning(script: seq<Read>, k: nat)
    requires FirstError(script, k)
    ensures BytesRead(script) == Flatten(Datas(script[..k + 1])) && EndOf(script) == script[k].err
  {
    var rest := script[1..];
    assert script[..k + 1] == [script[0]] + rest[..k];
    DatasCons(script[0], rest[..k]);
    if k > 0 {
      BytesReadMeaning(rest, k - 1);
    }
  }

  /** While no read has come with an error, they are the data of all of them. */
  lemma {:induction false} BytesReadSoFar(script: seq<Read>)
    requires forall i :: 0 <= i < |script| ==> script[i].err.NoError?
    ensures BytesRead(script) == Flatten(Datas(script)) && EndOf(script) == NoError
  {
    if script != [] {
      BytesReadSoFar(script[1..]);
      assert script == [script[0]] + script[1..];
      DatasCons(script[0], script[1..]);
    }
  }

  /** The body a request's engine produced, and how it ended. */
  function EngineBytes(p: Proxied): seq<byte> {
    if p.Body? then BytesRead(p.script) else []
  }

  function EngineEnd(p: Proxied): ReadError {
    match p
    case Refused(msg) => Failure(msg)
    case Body(script) => EndOf(script)
  }

  function Terminal(err: ReadError): seq<Frame> {
    match err
    case NoError => []
    case EndOfFile => [Frame(FRAME_EOF, [])]
    case Failure(msg) => [Frame(FRAME_ERROR, msg)]
  }

  function Chunk(data: seq<byte>): seq<Frame> {
    if data == [] then [] else [Frame(FRAME_CHUNK, data)]
  }

  function ReadFrames(script: seq<Read>): seq<Frame> {
    if script == [] then []
    else Chunk(script[0].data) + if script[0].err.NoError? then ReadFrames(script[1..]) else Terminal(script[0].err)
  }

  /** Every frame handleJob sends for a request, in order. */
  function JobFrames(p: Proxied): seq<Frame> {
    match p
    case Refused(msg) => Terminal(Failure(msg))
    case Body(script) => ReadFrames(script)
  }

  /** A frame as the worker holds it: the payload is a slice of memory. */
  datatype SentFrame = SentFrame(ftype: byte, payload: array<byte>)

  /** The memory sent so far holds these frames. */
  ghost predicate Holds(sent: seq<SentFrame>, frames: seq<Frame>)
    reads set k | 0 <= k < |sent| :: sent[k].payload
  {
    && |sent| == |frames|
    && forall k :: 0 <= k < |sent| ==> Frame(sent[k].ftype, sent[k].payload[..]) == frames[k]
  }

  /** handleJob. One buffer serves every read; each chunk is copied out of it, so
      what has been sent is not disturbed by later reads. */
  method HandleJob(p: Proxied) returns (sent: seq<SentFrame>)
    requires FitsBuffer(p)
    ensures Holds(sent, JobFrames(p))
  {
    sent := [];
    if p.Refused? {
      sent := Send(sent, [], Frame(FRAME_ERROR, p.msg));
      return;
    }
    ghost var frames: seq<Frame> := [];
    var buf := new byte[BUFFER_SIZE];
    var i := 0;
    while i < |p.script|
      invariant 0 <= i <= |p.script|
      invariant forall k :: 0 <= k < |sent| ==> fresh(sent[k].payload) && sent[k].payload != buf
      invariant Holds(sent, frames)
      invariant ReadFrames(p.script) == frames + ReadFrames(p.script[i..])
    {
      var rd := p.script[i];
      NextRead(p.script, i, frames);
      sent := SendRead(sent, frames, buf, rd.data);
      frames := frames + Chunk(rd.data);
      if !rd.err.NoError? {
        sent := Send(sent, frames, Terminal(rd.err)[0]);
        return;
      }
      i := i + 1;
    }
  }

  /** One read into the shared buffer, and its chunk if it brought data. */
  method SendRead(sent: seq<SentFrame>, ghost frames: seq<Frame>, buf: array<byte>, data: seq<byte>)
    returns (more: seq<SentFrame>)
    requires Holds(sent, frames) && |data| <= buf.Length
    requires forall k :: 0 <= k < |sent| ==> sent[k].payload != buf
    modifies buf
    ensures |sent| <= |more| && more[..|sent|] == sent
    ensures forall k :: |sent| <= k < |more| ==> fresh(more[k].payload)
    ensures Holds(more, frames + Chunk(data))
  {
    var n := |data|;
    CopyInto(buf, 0, data);
    assert Holds(sent, frames);
    if n == 0 {
      assert frames + Chunk(data) == frames;
      return sent;
    }
    assert buf[..n] == data;
    more := Send(sent, frames, Frame(FRAME_CHUNK, buf[..n]));
  }

  /** Sends one frame from memory of its own. */
  method Send(sent: seq<SentFrame>, ghost frames: seq<Frame>, f: Frame) returns (more: seq<SentFrame>)
    requires Holds(sent, frames)
    ensures |more| == |sent| + 1 && more[..|sent|] == sent && fresh(more[|sent|].payload)
    ensures Holds(more, frames + [f])
  {
    var payload := new byte[|f.payload|];
    CopyInto(payload, 0, f.payload);
    more := sent + [SentFrame(f.ftype, payload)];
    assert payload[..] == f.payload;
  }

  /** What one iteration of the read loop adds. */
  lemma NextRead(script: seq<Read>, i: nat, frames: seq<Frame>)
    requires i < |script|
    ensures var rd := script[i];
            frames + ReadFrames(script[i..])
            == frames + Chunk(rd.data) + if rd.err.NoError? then ReadFrames(script[i + 1..]) else Terminal(rd.err)
  {
    var rest := script[i..];
    assert rest[0] == script[i] && rest[1..] == script[i + 1..];
  }

  /** The payloads of the chunk frames, concatenated. */
  function ChunkBytes(frames: seq<Frame>): seq<byte> {
    if frames == [] then []
    else (if frames[0].ftype == FRAME_CHUNK then frames[0].payload else []) + ChunkBytes(frames[1..])
  }

  lemma {:induction false} ChunkBytesAppend(a: seq<Frame>, b: seq<Frame>)
    ensures ChunkBytes(a + b) == ChunkBytes(a) + ChunkBytes(b)
  {
    if a == [] {
      assert a + b == b;
    } else {
      assert (a + b)[0] == a[0] && (a + b)[1..] == a[1..] + b;
      ChunkBytesAppend(a[1..], b);
    }
  }

  predicate IsTerminal(f: Frame) {
    f.ftype == FRAME_EOF || f.ftype == FRAME_ERROR
  }

  /** Non-empty chunks within the buffer size, then at most one terminal frame,
      which can only come last. */
  ghost predicate WellFramed(frames: seq<Frame>) {
    forall i :: 0 <= i < |frames| ==>
      || (frames[i].ftype == FRAME_CHUNK && 1 <= |frames[i].payload| <= 4096)
      || (i == |frames| - 1 && IsTerminal(frames[i]))
  }

  /** The last frame is the terminal frame for err; with no error there is none. */
  ghost predicate EndsWith(frames: seq<Frame>, err: ReadError) {
    match err
    case NoError => forall i :: 0 <= i < |frames| ==> !IsTerminal(frames[i])
    case EndOfFile => |frames| > 0 && frames[|frames| - 1] == Frame(FRAME_EOF, [])
    case Failure(msg) => |frames| > 0 && frames[|frames| - 1] == Frame(FRAME_ERROR, msg)
  }

  lemma {:induction false} ReadFramesShape(script: seq<Read>)
    requires FitsBuffer(Body(script))
    ensures WellFramed(ReadFrames(script)) && EndsWith(ReadFrames(script), EndOf(script))
  {
    if script != [] {
      if script[0].err.NoError? {
        ghost var rest := script[1..];
        assert FitsBuffer(Body(rest));
        ReadFramesShape(rest);
      }
    }
  }

  lemma {:induction false} ReadFramesBytes(script: seq<Read>)
    ensures ChunkBytes(ReadFrames(script)) == BytesRead(script)
  {
    if script != [] {
      var rd := script[0];
      var head, tail := Chunk(rd.data), if rd.err.NoError? then ReadFrames(script[1..]) else Terminal(rd.err);
      ChunkBytesAppend(head, tail);
      assert ChunkBytes(head) == rd.data by {
        if rd.data != [] {
          assert head[1..] == [] && ChunkBytes(head) == rd.data + ChunkBytes(head[1..]);
        }
      }
      if rd.err.NoError? {
        ReadFramesBytes(script[1..]);
      } else {
        assert tail[1..] == [] && ChunkBytes(tail) == [] + ChunkBytes(tail[1..]);
      }
    }
  }

  /** For every script: chunks of 1 to 4096 bytes whose concatenation is exactly
      what was read (nothing when Proxy fails), then exactly one terminal frame
      saying how it ended, and none while the engine has not ended. */
  lemma JobFramesAreTheBody(p: Proxied)
    requires FitsBuffer(p)
    ensures WellFramed(JobFrames(p))
    ensures EndsWith(JobFrames(p), EngineEnd(p))
    ensures ChunkBytes(JobFrames(p)) == EngineBytes(p)
  {
    match p
    case Refused(msg) =>
      assert Terminal(Failure(msg))[1..] == [];
    case Body(script) =>
      ReadFramesShape(script);
      ReadFramesBytes(script);
  }

  /** EOF is emitted only by a job whose engine body ended cleanly, as its last
      frame. */
  lemma EofMeansCleanEnd(p: Proxied, f: Frame)
    requires FitsBuffer(p) && f in JobFrames(p) && f.ftype == FRAME_EOF
    ensures EngineEnd(p) == EndOfFile
    ensures JobFrames(p)[|JobFrames(p)| - 1] == f
  {
    JobFramesAreTheBody(p);
    var fs := JobFrames(p);
    var i :| 0 <= i < |fs| && fs[i] == f;
    assert i == |fs| - 1;
  }

  // ---------- the router side ----------

  /** streamResponse so far: bytes written, statuses recorded, frames taken. */
  datatype Stream = Stream(out: seq<byte>, audits: seq<int>, used: nat)

  /** bufferedResponse so far; response is what the client finally gets. */
  datatype Buffered = Buffered(buf: seq<byte>, audits: seq<int>, used: nat, response: Option<Response>)

  datatype Response = Response(status: int, body: seq<byte>)

  /** How error text is rendered to clients: the event line of a stream and the
      JSON body of a buffered response. */
  datatype Render = Render(event: seq<byte> -> seq<byte>, json: seq<byte> -> seq<byte>)

  /** One iteration of the streaming loop; flushed says whether Flush succeeds. */
  function StreamStep(s: Stream, f: Frame, flushed: bool, render: Render): Stream {
    var s := s.(used := s.used + 1);
    if f.ftype == FRAME_CHUNK then
      s.(out := s.out + f.payload, audits := if flushed then s.audits else s.audits + [STATUS_BAD_GATEWAY])
    else if f.ftype == FRAME_EOF then s.(audits := s.audits + [STATUS_OK])
    else if f.ftype == FRAME_ERROR then
      s.(out := s.out + render.event(f.payload), audits := s.audits + [STATUS_BAD_GATEWAY])
    else s
  }

  function BufferedStep(b: Buffered, f: Frame, render: Render): Buffered {
    var b := b.(used := b.used + 1);
    if f.ftype == FRAME_CHUNK then b.(buf := b.buf + f.payload)
    else if f.ftype == FRAME_EOF then
      b.(audits := b.audits + [STATUS_OK], response := Some(Response(STATUS_OK, b.buf)))
    else if f.ftype == FRAME_ERROR then
      b.(audits := b.audits + [STATUS_BAD_GATEWAY], response := Some(Response(STATUS_BAD_GATEWAY, render.json(f.payload))))
    else b
  }

  /** The streaming loop on a sequence of received frames: once a status has been
      recorded the writer has returned and takes no more. */
  function Streamed(frames: seq<Frame>, flushes: seq<bool>, render: Render): Stream
    requires |flushes| == |frames|
  {
    if frames == [] then Stream([], [], 0)
    else
      var n := |frames| - 1;
      var s := Streamed(frames[..n], flushes[..n], render);
      if s.audits != [] then s else StreamStep(s, frames[n], flushes[n], render)
  }

  function BufferedAll(frames: seq<Frame>, render: Render): Buffered {
    if frames == [] then Buffered([], [], 0, None)
    else
      var n := |frames| - 1;
      var b := BufferedAll(frames[..n], render);
      if b.audits != [] then b else BufferedStep(b, frames[n], render)
  }

  /** streamResponse over the frames that arrive; it keeps waiting when they run
      out, since nothing closes the session channel. */
  method StreamResponse(frames: seq<Frame>, flushes: seq<bool>, render: Render) returns (s: Stream)
    requires |flushes| == |frames|
    ensures s == Streamed(frames, flushes, render)
  {
    s := Stream([], [], 0);
    var i := 0;
    while i < |frames|
      invariant 0 <= i <= |frames|
      invariant s.audits == [] && s == Streamed(frames[..i], flushes[..i], render)
    {
      var f := frames[i];
      assert frames[..i + 1][..i] == frames[..i] && flushes[..i + 1][..i] == flushes[..i];
      s := s.(used := s.used + 1);
      if f.ftype == FRAME_CHUNK {
        s := s.(out := s.out + f.payload);
        if !flushes[i] {
          s := s.(audits := s.audits + [STATUS_BAD_GATEWAY]);
        }
      } else if f.ftype == FRAME_EOF {
        s := s.(audits := s.audits + [STATUS_OK]);
      } else if f.ftype == FRAME_ERROR {
        s := s.(out := s.out + render.event(f.payload));
        s := s.(audits := s.audits + [STATUS_BAD_GATEWAY]);
      }
      i := i + 1;
      if s.audits != [] {
        StreamedStays(frames, flushes, render, i);
        return;
      }
    }
    assert frames[..i] == frames && flushes[..i] == flushes;
  }

  lemma {:induction false} StreamedStays(frames: seq<Frame>, flushes: seq<bool>, render: Render, i: nat)
    requires |flushes| == |frames| && i <= |frames|
    requires Streamed(frames[..i], flushes[..i], render).audits != []
    ensures Streamed(frames, flushes, render) == Streamed(frames[..i], flushes[..i], render)
  {
    if i == |frames| {
      assert frames[..i] == frames && flushes[..i] == flushes;
    } else {
      var n := |frames| - 1;
      assert frames[..n][..i] == frames[..i] && flushes[..n][..i] == flushes[..i];
      StreamedStays(frames[..n], flushes[..n], render, i);
    }
  }

  method BufferedResponse(frames: seq<Frame>, render: Render) returns (b: Buffered)
    ensures b == BufferedAll(frames, render)
  {
    b := Buffered([], [], 0, None);
    var i := 0;
    while i < |frames|
      invariant 0 <= i <= |frames|
      invariant b.audits == [] && b == BufferedAll(frames[..i], render)
    {
      var f := frames[i];
      assert frames[..i + 1][..i] == frames[..i];
      b := b.(used := b.used + 1);
      if f.ftype == FRAME_CHUNK {
        b := b.(buf := b.buf + f.payload);
      } else if f.ftype == FRAME_EOF {
        b := b.(audits := b.audits + [STATUS_OK], response := Some(Response(STATUS_OK, b.buf)));
      } else if f.ftype == FRAME_ERROR {
        b := b.(audits := b.audits + [STATUS_BAD_GATEWAY]);
        b := b.(response := Some(Response(STATUS_BAD_GATEWAY, render.json(f.payload))));
      }
      i := i + 1;
      if b.audits != [] {
        BufferedStays(frames, render, i);
        return;
      }
    }
    assert frames[..i] == frames;
  }

  lemma {:induction false} BufferedStays(frames: seq<Frame>, render: Render, i: nat)
    requires i <= |frames| && BufferedAll(frames[..i], render).audits != []
    ensures BufferedAll(frames, render) == BufferedAll(frames[..i], render)
  {
    if i == |frames| {
      assert frames[..i] == frames;
    } else {
      var n := |frames| - 1;
      assert frames[..n][..i] == frames[..i];
      BufferedStays(frames[..n], render, i);
    }
  }

  lemma StatusesDiffer()
    ensures [STATUS_OK] != [STATUS_BAD_GATEWAY]
  {
    assert [STATUS_OK][0] != [STATUS_BAD_GATEWAY][0];
  }

  ghost predicate AllFlush(flushes: seq<bool>) {
    forall i :: 0 <= i < |flushes| ==> flushes[i]
  }

  /** On any frame sequence, absent flush failure, the two writers take the same
      frames and record the same single status or none; on success the client
      receives identical bytes, and both have collected the same chunks before. */
  lemma {:induction false} WritersAgree(frames: seq<Frame>, flushes: seq<bool>, render: Render)
    requires |flushes| == |frames| && AllFlush(flushes)
    ensures var s, b := Streamed(frames, flushes, render), BufferedAll(frames, render);
            && s.used == b.used && s.audits == b.audits && |s.audits| <= 1
            && (s.audits == [] ==> s.out == b.buf)
            && (s.audits == [STATUS_OK] ==> b.response == Some(Response(STATUS_OK, s.out)))
            && (b.response.Some? <==> b.audits != [])
            && (s.audits != [] ==> s.audits == [STATUS_OK] || s.audits == [STATUS_BAD_GATEWAY])
  {
    if frames != [] {
      var n := |frames| - 1;
      WritersAgree(frames[..n], flushes[..n], render);
      StatusesDiffer();
    }
  }

  lemma ChunkBytesSnoc(frames: seq<Frame>, f: Frame)
    ensures ChunkBytes(frames + [f]) == ChunkBytes(frames) + if f.ftype == FRAME_CHUNK then f.payload else []
  {
    ChunkBytesAppend(frames, [f]);
    assert ChunkBytes([f]) == (if f.ftype == FRAME_CHUNK then f.payload else []) + ChunkBytes([f][1..]);
  }

  /** A stream still waiting has taken every frame, none of them terminal, and
      written their chunks. */
  lemma {:induction false} WaitingStream(frames: seq<Frame>, flushes: seq<bool>, render: Render)
    requires |flushes| == |frames| && Streamed(frames, flushes, render).audits == []
    ensures var s := Streamed(frames, flushes, render);
            s.used == |frames| && s.out == ChunkBytes(frames)
    ensures forall i :: 0 <= i < |frames| ==> !IsTerminal(frames[i])
  {
    if frames != [] {
      var n := |frames| - 1;
      WaitingStream(frames[..n], flushes[..n], render);
      ChunkBytesSnoc(frames[..n], frames[n]);
      assert frames == frames[..n] + [frames[n]];
    }
  }

  /** Why a stream stopped: it records one status, 200 if the last frame taken is
      EOF and 502 otherwise; on EOF the chunks of all frames taken are written. */
  lemma {:induction false} StoppedStream(frames: seq<Frame>, flushes: seq<bool>, render: Render)
    requires |flushes| == |frames| && Streamed(frames, flushes, render).audits != []
    ensures var s := Streamed(frames, flushes, render);
            && 1 <= s.used <= |frames|
            && s.audits == [if frames[s.used - 1].ftype == FRAME_EOF then 200 else 502]
            && (s.audits == [STATUS_OK] ==> frames[s.used - 1].ftype == FRAME_EOF && s.out == ChunkBytes(frames[..s.used]))
  {
    var n := |frames| - 1;
    var s := Streamed(frames[..n], flushes[..n], render);
    if s.audits == [] {
      WaitingStream(frames[..n], flushes[..n], render);
      ChunkBytesSnoc(frames[..n], frames[n]);
      StatusesDiffer();
      assert frames[..n + 1] == frames == frames[..n] + [frames[n]];
    } else {
      StoppedStream(frames[..n], flushes[..n], render);
      assert frames[..s.used] == frames[..n][..s.used];
    }
  }

  /** What a buffering client is finally sent: the chunks with status 200 when the
      frames end with EOF, the rendered text with status 502 when they end with an
      error, and nothing before. */
  lemma BufferedAnswer(frames: seq<Frame>, flushes: seq<bool>, render: Render)
    requires |flushes| == |frames| && AllFlush(flushes) && BufferedAll(frames, render).used == |frames|
    ensures BufferedAll(frames, render).response
            == if frames == [] then None
               else
                 var last := frames[|frames| - 1];
                 if last.ftype == FRAME_EOF then Some(Response(200, ChunkBytes(frames)))
                 else if last.ftype == FRAME_ERROR then Some(Response(502, render.json(last.payload)))
                 else None
  {
    if frames != [] {
      var n := |frames| - 1;
      var before := frames[..n];
      WritersAgree(before, flushes[..n], render);
      if Streamed(before, flushes[..n], render).audits != [] {
        StoppedStream(before, flushes[..n], render);
      } else {
        WaitingStream(before, flushes[..n], render);
        ChunkBytesSnoc(before, frames[n]);
        assert frames == before + [frames[n]] && ChunkBytes(before) + [] == ChunkBytes(before);
      }
    }
  }

  /** A frame that makes a stream return: a terminal frame, or a chunk whose
      flush fails. */
  predicate Stops(f: Frame, flushed: bool) {
    IsTerminal(f) || (f.ftype == FRAME_CHUNK && !flushed)
  }

  /** A stream is still waiting exactly when no frame made it return. */
  lemma {:induction false} StreamStopsExactly(frames: seq<Frame>, flushes: seq<bool>, render: Render)
    requires |flushes| == |frames|
    ensures Streamed(frames, flushes, render).audits == []
            <==> forall i :: 0 <= i < |frames| ==> !Stops(frames[i], flushes[i])
  {
    if frames != [] {
      var n := |frames| - 1;
      StreamStopsExactly(frames[..n], flushes[..n], render);
      assert forall i :: 0 <= i < n ==> frames[..n][i] == frames[i] && flushes[..n][i] == flushes[i];
      assert Stops(frames[n], flushes[n]) <==> StreamStep(Stream([], [], 0), frames[n], flushes[n], render).audits != [];
    }
  }

  /** What a stream writes for its last frame when that is an error. */
  function ErrorText(frames: seq<Frame>, render: Render): seq<byte> {
    if frames != [] && frames[|frames| - 1].ftype == FRAME_ERROR then render.event(frames[|frames| - 1].payload) else []
  }

  /** A stream that took every frame has written their chunks in order, then the
      error event if it ended with one, and nothing else. */
  lemma StreamedBytes(frames: seq<Frame>, flushes: seq<bool>, render: Render)
    requires |flushes| == |frames| && Streamed(frames, flushes, render).used == |frames|
    ensures Streamed(frames, flushes, render).out == ChunkBytes(frames) + ErrorText(frames, render)
  {
    if frames != [] {
      var n := |frames| - 1;
      var before, f := frames[..n], frames[n];
      assert frames == before + [f];
      ChunkBytesSnoc(before, f);
      if Streamed(before, flushes[..n], render).audits != [] {
        StoppedStream(before, flushes[..n], render);
      } else {
        WaitingStream(before, flushes[..n], render);
        StreamStepBytes(Streamed(before, flushes[..n], render), f, flushes[n], render);
      }
    }
  }

  lemma StreamStepBytes(s: Stream, f: Frame, flushed: bool, render: Render)
    ensures StreamStep(s, f, flushed, render).out
            == s.out + (if f.ftype == FRAME_CHUNK then f.payload else []) + if f.ftype == FRAME_ERROR then render.event(f.payload) else []
  {
  }

  /** A buffering writer that took every frame holds their chunks in order. */
  lemma BufferedBytes(frames: seq<Frame>, flushes: seq<bool>, render: Render)
    requires |flushes| == |frames| && AllFlush(flushes) && BufferedAll(frames, render).used == |frames|
    ensures BufferedAll(frames, render).buf == ChunkBytes(frames)
  {
    if frames != [] {
      var n := |frames| - 1;
      WritersAgree(frames[..n], flushes[..n], render);
      if Streamed(frames[..n], flushes[..n], render).audits != [] {
        StoppedStream(frames[..n], flushes[..n], render);
      } else {
        WaitingStream(frames[..n], flushes[..n], render);
        ChunkBytesSnoc(frames[..n], frames[n]);
        assert frames == frames[..n] + [frames[n]];
      }
    }
  }
}
