/** Bodies: what is encoded in chunks, or announced with a length, is what the parser reports. */
module HttpBody {
  import opened Options
  import opened HttpTypes
  import opened HttpStep
  import opened HttpRun
  import opened HttpCut
  import opened HttpInvariant
  import opened HttpParser

  /** The largest chunk size that the overflow check lets pass. */
  const MAX_CHUNK: nat := ULLONG_MAX - 16

  function HexDigit(d: nat): byte
    requires d < 16
  {
    if d < 10 then 48 + d else 87 + d
  }

  /** Hexadecimal digits without leading zeros. */
  function Hex(n: nat): seq<byte>
  {
    if n < 16 then [HexDigit(n)] else Hex(n / 16) + [HexDigit(n % 16)]
  }

  /** A chunk as section 3.6.1 of RFC 2616 has it. */
  function ChunkBytes(chunk: seq<byte>): seq<byte>
  {
    Hex(|chunk|) + [CR, LF] + chunk + [CR, LF]
  }

  function Encode(chunks: seq<seq<byte>>): seq<byte>
  {
    if chunks == [] then Hex(0) + [CR, LF] + [CR, LF] else ChunkBytes(chunks[0]) + Encode(chunks[1..])
  }

  /** A run whose state and length have changed, n bytes further on. */
  function At(r: Run, s: State, left: nat, n: nat): Run
  {
    r.(c := r.c.(state := s, contentLength := left), used := r.used + n)
  }

  /** One byte outside any token that is consumed without a report. */
  lemma PlainByte(r: Run, ch: byte, rest: seq<byte>, skip: bool, o: Out)
    requires r.stop == Going && r.pend.Closed? && o == Step(r.c, ch, skip) && o.next == Consume && o.mark.None? &&
      o.note.None?
    ensures Exec(r, [ch] + rest, skip) == Exec(r.(c := o.c, used := r.used + 1), rest, skip)
  {
    hide Step;
    assert ([ch] + rest)[1..] == rest;
    assert r.trace + [] + [] == r.trace;
  }

  /** A byte outside any token that is refused. */
  lemma RefusedByte(r: Run, ch: byte, rest: seq<byte>, skip: bool, o: Out)
    requires r.stop == Going && r.pend.Closed? && o == Step(r.c, ch, skip) && o.next == Fail && o.mark.None? &&
      o.note.None?
    ensures var f := Exec(r, [ch] + rest, skip); f.stop == Failed && f.c == o.c
  {
    hide Step;
    assert r.trace + [] + [] == r.trace;
  }

  lemma HexDigitValue(d: nat)
    requires d < 16
    ensures Unhex(HexDigit(d)) == d && HexDigit(d) != CR
  {
  }

  /** A chunk size is read as the number it stands for exactly when it is at most 2^64 - 17; any other is refused. */
  lemma {:induction false} SizeIsRead(r: Run, n: nat, rest: seq<byte>, skip: bool)
    requires r.stop == Going && r.pend.Closed? && r.c.state.ChunkSizeStart?
    ensures n <= MAX_CHUNK ==> Exec(r, Hex(n) + rest, skip) == Exec(At(r, ChunkSize, n, |Hex(n)|), rest, skip)
    ensures n > MAX_CHUNK ==>
      (var f := Exec(r, Hex(n) + rest, skip); f.stop == Failed && f.c.errno == InvalidContentLength)
  {
    HexIs(n, rest);
    hide Exec, Step, Hex, HexDigit;
    if n < 16 {
      FirstDigit(r, n, rest, skip);
    } else {
      SizeIsRead(r, n / 16, [HexDigit(n % 16)] + rest, skip);
      if n / 16 <= MAX_CHUNK {
        NextDigit(At(r, ChunkSize, n / 16, |Hex(n / 16)|), n, rest, skip);
      }
    }
  }

  lemma HexIs(n: nat, rest: seq<byte>)
    ensures n < 16 ==> Hex(n) == [HexDigit(n)]
    ensures n >= 16 ==> Hex(n) + rest == Hex(n / 16) + ([HexDigit(n % 16)] + rest) && |Hex(n)| == |Hex(n / 16)| + 1
    ensures n >= 16 && n / 16 > MAX_CHUNK ==> n > MAX_CHUNK
    ensures n >= 16 ==> n / 16 < n
  {
  }

  lemma FirstDigit(r: Run, n: nat, rest: seq<byte>, skip: bool)
    requires r.stop == Going && r.pend.Closed? && r.c.state.ChunkSizeStart? && n < 16
    ensures Exec(r, [HexDigit(n)] + rest, skip) == Exec(At(r, ChunkSize, n, 1), rest, skip)
  {
    hide Step, Exec, HexDigit;
    FirstDigitStep(r.c, n, skip);
    PlainByte(r, HexDigit(n), rest, skip, Step(r.c, HexDigit(n), skip));
  }

  lemma FirstDigitStep(c: Core, n: nat, skip: bool)
    requires c.state.ChunkSizeStart? && n < 16
    ensures Step(c, HexDigit(n), skip) == To(c.(contentLength := n), ChunkSize)
  {
    HexDigitValue(n);
    hide HexDigit, Unhex;
  }

  lemma NextDigit(r: Run, n: nat, rest: seq<byte>, skip: bool)
    requires r.stop == Going && r.pend.Closed? && r.c.state.ChunkSize? && r.c.contentLength == n / 16
    ensures n <= MAX_CHUNK ==> Exec(r, [HexDigit(n % 16)] + rest, skip) == Exec(At(r, ChunkSize, n, 1), rest, skip)
    ensures n > MAX_CHUNK ==>
      (var f := Exec(r, [HexDigit(n % 16)] + rest, skip); f.stop == Failed && f.c.errno == InvalidContentLength)
  {
    hide Step, Exec, HexDigit;
    var ch := HexDigit(n % 16);
    NextDigitStep(r.c, n, skip);
    if n > MAX_CHUNK {
      RefusedByte(r, ch, rest, skip, Step(r.c, ch, skip));
    } else {
      PlainByte(r, ch, rest, skip, Step(r.c, ch, skip));
    }
  }

  lemma NextDigitStep(c: Core, n: nat, skip: bool)
    requires c.state.ChunkSize? && c.contentLength == n / 16
    ensures Step(c, HexDigit(n % 16), skip) ==
      if n > MAX_CHUNK then Refuse(c, InvalidContentLength) else Eat(c.(contentLength := n))
  {
    HexDigitValue(n % 16);
    hide HexDigit, Unhex;
    assert n / 16 * 16 + n % 16 == n;
    assert n > MAX_CHUNK <==> (ULLONG_MAX - 16) / 16 < n / 16;
  }

  /** After the last chunk's size line. */
  function Trailing(r: Run, n: nat): Run
  {
    At(r.(c := r.c.(flags := Stored(r.c.flags.(trailing := true)))), HeaderFieldStart, 0, n)
  }

  /** The line that a chunk size ends. */
  lemma SizeLine(r: Run, n: nat, rest: seq<byte>, skip: bool)
    requires r.stop == Going && r.pend.Closed? && r.c.state.ChunkSizeStart? && n <= MAX_CHUNK
    ensures n > 0 ==> Exec(r, Hex(n) + [CR, LF] + rest, skip) == Exec(At(r, ChunkData, n, |Hex(n)| + 2), rest, skip)
    ensures n == 0 ==> Exec(r, Hex(n) + [CR, LF] + rest, skip) == Exec(Trailing(r, |Hex(n)| + 2), rest, skip)
  {
    hide Exec, Step, Hex, Stored;
    var h := |Hex(n)|;
    var r1, r2 := At(r, ChunkSize, n, h), At(r, ChunkSizeAlmostDone, n, h + 1);
    LineEnd(Hex(n), rest);
    SizeIsRead(r, n, [CR] + ([LF] + rest), skip);
    SizeEndSteps(r1.c, r2.c, skip);
    PlainByte(r1, CR, [LF] + rest, skip, Step(r1.c, CR, skip));
    PlainByte(r2, LF, rest, skip, Step(r2.c, LF, skip));
  }

  lemma LineEnd(s: seq<byte>, rest: seq<byte>)
    ensures s + [CR, LF] + rest == s + ([CR] + ([LF] + rest))
    ensures [CR, LF] + rest == [CR] + ([LF] + rest)
  {
  }

  lemma SizeEndSteps(c1: Core, c2: Core, skip: bool)
    requires c1.state.ChunkSize? && c2.state.ChunkSizeAlmostDone?
    ensures Step(c1, CR, skip) == To(c1, ChunkSizeAlmostDone)
    ensures var o := Step(c2, LF, skip);
      o.next == Consume && o.mark.None? && o.note.None? &&
      o.c == if c2.contentLength == 0 then c2.(flags := Stored(c2.flags.(trailing := true)), state := HeaderFieldStart)
             else c2.(state := ChunkData)
  {
  }

  /** After a chunk: its bytes have been reported, and the next size is expected. */
  function AfterChunk(r: Run, chunk: seq<byte>): Run
  {
    At(r, ChunkSizeStart, 0, |ChunkBytes(chunk)|).(trace := r.trace + [Data(BodyData, chunk)])
  }

  lemma OneChunk(r: Run, chunk: seq<byte>, rest: seq<byte>, skip: bool)
    requires r.stop == Going && r.pend.Closed? && r.c.state.ChunkSizeStart? && 0 < |chunk| <= MAX_CHUNK
    ensures Exec(r, ChunkBytes(chunk) + rest, skip) == Exec(AfterChunk(r, chunk), rest, skip)
  {
    hide *;
    var n := |chunk|;
    var r1, r2 := InChunk(r, chunk), ChunkDone(r, chunk);
    var data := chunk + ([CR, LF] + rest);
    ChunkSplit(chunk, rest);
    ChunkPlaces(r, chunk);
    SizeLine(r, n, data, skip);
    ChunkRun(r1, data, 0, n, skip);
    ChunkEnd(r2, chunk, rest, skip);
  }

  function InChunk(r: Run, chunk: seq<byte>): Run
  {
    At(r, ChunkData, |chunk|, |Hex(|chunk|)| + 2)
  }

  function ChunkDone(r: Run, chunk: seq<byte>): Run
  {
    Run(r.c.(state := ChunkDataAlmostDone, contentLength := 0), Open(BodyData, chunk), r.trace, Going,
        r.used + |Hex(|chunk|)| + 2 + |chunk|)
  }

  lemma ChunkPlaces(r: Run, chunk: seq<byte>)
    requires r.stop == Going && r.pend.Closed? && 0 < |chunk| <= MAX_CHUNK
    ensures var r1, r2 := InChunk(r, chunk), ChunkDone(r, chunk);
      r1 == At(r, ChunkData, |chunk|, |Hex(|chunk|)| + 2) && r1.stop == Going && r1.c.state.ChunkData? &&
        r1.c.contentLength == |chunk| &&
      BodyRead(r1, ChunkState(0), 0, chunk) == r2 &&
        BodyRead(r1, ChunkState(|chunk| - |chunk|), |chunk| - |chunk|, chunk) == r2 &&
      r2.stop == Going && r2.pend == Open(BodyData, chunk) && r2.c.state.ChunkDataAlmostDone? &&
        r2.c.contentLength == 0 &&
      AfterChunk(r, chunk) == Run(r2.c.(state := ChunkSizeStart), Closed, r2.trace + [Data(BodyData, chunk)], Going,
        r2.used + 2)
  {
    assert [] + chunk == chunk;
    hide Hex;
  }

  lemma ChunkSplit(chunk: seq<byte>, rest: seq<byte>)
    ensures var data := chunk + ([CR, LF] + rest); var n := |chunk|;
      ChunkBytes(chunk) + rest == Hex(n) + [CR, LF] + data && data[0..] == data && data[0..0 + n] == chunk &&
        data[0 + n..] == [CR, LF] + rest
  {
    hide Hex;
  }

  lemma ChunkEnd(r: Run, chunk: seq<byte>, rest: seq<byte>, skip: bool)
    requires r.stop == Going && r.pend == Open(BodyData, chunk) && r.c.state.ChunkDataAlmostDone? &&
      r.c.contentLength == 0
    ensures Exec(r, [CR, LF] + rest, skip) ==
      Exec(Run(r.c.(state := ChunkSizeStart), Closed, r.trace + [Data(BodyData, chunk)], Going, r.used + 2), rest, skip)
  {
    hide *;
    var o := To(r.c, ChunkDataDone).(flush := Some(BodyData));
    var r1 := Run(r.c.(state := ChunkDataDone), Closed, r.trace + [Data(BodyData, chunk)], Going, r.used + 1);
    ChunkEndApply(r, chunk);
    ChunkEndSteps(r.c, r1.c, skip);
    TwoBytes(rest);
    ExecOnce(r, [CR, LF] + rest, skip);
    PlainByte(r1, LF, rest, skip, To(r1.c, ChunkSizeStart).(reset := true));
  }

  lemma ChunkEndApply(r: Run, chunk: seq<byte>)
    requires r.pend == Open(BodyData, chunk)
    ensures var o := To(r.c, ChunkDataDone).(flush := Some(BodyData));
      o.next == Consume &&
        Apply(r, o, CR) == Run(r.c.(state := ChunkDataDone), Closed, r.trace + [Data(BodyData, chunk)], Going,
        r.used + 1)
    ensures var c1 := r.c.(state := ChunkDataDone); var o := To(c1, ChunkSizeStart).(reset := true);
      o.next == Consume && o.mark.None? && o.note.None? && o.c == r.c.(state := ChunkSizeStart)
  {
    assert r.trace + [Data(BodyData, chunk)] + [] == r.trace + [Data(BodyData, chunk)];
  }

  lemma TwoBytes(rest: seq<byte>)
    ensures var s := [CR, LF] + rest; s != [] && s[0] == CR && s[1..] == [LF] + rest && CR == 13
    ensures var s := [LF] + rest; s != [] && s[0] == LF && s[1..] == rest
  {
  }

  lemma ChunkEndSteps(c: Core, c1: Core, skip: bool)
    requires c.state.ChunkDataAlmostDone? && c1.state.ChunkDataDone?
    ensures Step(c, CR, skip) == To(c, ChunkDataDone).(flush := Some(BodyData))
    ensures Step(c1, LF, skip) == To(c1, ChunkSizeStart).(reset := true)
  {
  }

  /** After the last chunk: the message is complete. */
  function AfterLast(r: Run): Run
  {
    var c := r.c.(flags := Stored(r.c.flags.(trailing := true)), contentLength := 0, state := HeadersAlmostDone);
    Run(c.(state := NewMessage(c)), Closed, r.trace + [Notify(MessageComplete)], Going, r.used + 5)
  }

  lemma LastChunk(r: Run, rest: seq<byte>, skip: bool)
    requires r.stop == Going && r.pend.Closed? && r.c.state.ChunkSizeStart?
    ensures Exec(r, Hex(0) + [CR, LF] + [CR, LF] + rest, skip) == Exec(AfterLast(r), rest, skip)
  {
    hide *;
    var r1, r2 := Trailing(r, 3), At(Trailing(r, 3), HeadersAlmostDone, 0, 1);
    LastPlaces(r, rest);
    LastSteps(r1.c, r2.c, skip);
    TwoBytes(rest);
    SizeLine(r, 0, [CR] + ([LF] + rest), skip);
    PlainByte(r1, CR, [LF] + rest, skip, To(r1.c, HeadersAlmostDone));
    ExecOnce(r2, [LF] + rest, skip);
  }

  lemma LastPlaces(r: Run, rest: seq<byte>)
    requires r.stop == Going && r.pend.Closed?
    ensures Hex(0) + [CR, LF] + [CR, LF] + rest == Hex(0) + [CR, LF] + ([CR] + ([LF] + rest)) && |Hex(0)| + 2 == 3 &&
      0 <= MAX_CHUNK
    ensures var r1, r2 := Trailing(r, 3), At(Trailing(r, 3), HeadersAlmostDone, 0, 1);
      r1.stop == r2.stop == Going && r1.pend.Closed? && r2.pend.Closed? && r1.c.state.HeaderFieldStart? &&
        r2.c.state.HeadersAlmostDone? &&
      r2.c.flags.trailing && r2 == r1.(c := To(r1.c, HeadersAlmostDone).c, used := r1.used + 1) &&
      Apply(r2, HttpStep.Done(r2.c), LF) == AfterLast(r)
    ensures var o := To(Trailing(r, 3).c, HeadersAlmostDone); o.next == Consume && o.mark.None? && o.note.None?
  {
    hide NewMessage;
    var r2 := At(Trailing(r, 3), HeadersAlmostDone, 0, 1);
    assert r2.trace + [] + [Notify(MessageComplete)] == r.trace + [Notify(MessageComplete)];
  }

  lemma LastSteps(c1: Core, c2: Core, skip: bool)
    requires c1.state.HeaderFieldStart? && c2.state.HeadersAlmostDone? && c2.flags.trailing
    ensures Step(c1, CR, skip) == To(c1, HeadersAlmostDone)
    ensures Step(c2, LF, skip) == HttpStep.Done(c2) && HttpStep.Done(c2).next == Consume
  {
    hide NewMessage;
  }

  function Reports(chunks: seq<seq<byte>>): seq<Event>
  {
    if chunks == [] then [Notify(MessageComplete)] else [Data(BodyData, chunks[0])] + Reports(chunks[1..])
  }

  /** Chunks that the parser accepts. */
  predicate Acceptable(chunks: seq<seq<byte>>)
  {
    forall i :: 0 <= i < |chunks| ==> 0 < |chunks[i]| <= MAX_CHUNK
  }

  lemma {:induction false} ChunksRun(r: Run, chunks: seq<seq<byte>>, skip: bool)
    requires r.stop == Going && r.pend.Closed? && r.c.state.ChunkSizeStart? && Acceptable(chunks)
    ensures var f := Exec(r, Encode(chunks), skip);
      f.stop == Going && f.pend.Closed? && f.trace == r.trace + Reports(chunks) &&
        f.used == r.used + |Encode(chunks)| &&
      f.c == AfterLast(r).c
    decreases |chunks|
  {
    hide *;
    if chunks == [] {
      NoChunks(r, skip);
    } else {
      var r1 := AfterChunk(r, chunks[0]);
      FirstOfChunks(r, chunks);
      OneChunk(r, chunks[0], Encode(chunks[1..]), skip);
      ChunksRun(r1, chunks[1..], skip);
    }
  }

  lemma NoChunks(r: Run, skip: bool)
    requires r.stop == Going && r.pend.Closed? && r.c.state.ChunkSizeStart?
    ensures var f := Exec(r, Encode([]), skip);
      f.stop == Going && f.pend.Closed? && f.trace == r.trace + Reports([]) && f.used == r.used + |Encode([])| &&
        f.c == AfterLast(r).c
  {
    LastChunk(r, [], skip);
    assert Hex(0) + [CR, LF] + [CR, LF] + [] == Encode([]) && |Hex(0)| == 1;
    assert Exec(AfterLast(r), [], skip) == AfterLast(r);
    hide Step, NewMessage, Hex;
  }

  lemma FirstOfChunks(r: Run, chunks: seq<seq<byte>>)
    requires r.stop == Going && r.pend.Closed? && r.c.state.ChunkSizeStart? && Acceptable(chunks) && chunks != []
    ensures 0 < |chunks[0]| <= MAX_CHUNK && Acceptable(chunks[1..]) &&
      Encode(chunks) == ChunkBytes(chunks[0]) + Encode(chunks[1..])
    ensures var r1 := AfterChunk(r, chunks[0]);
      r1.stop == Going && r1.pend.Closed? && r1.c.state.ChunkSizeStart? &&
        r1.trace + Reports(chunks[1..]) == r.trace + Reports(chunks) &&
      r1.used + |Encode(chunks[1..])| == r.used + |Encode(chunks)| && AfterLast(r1).c == AfterLast(r).c
  {
    hide *;
    EncodeFirst(chunks);
    AfterChunkIs(r, chunks[0]);
    ReportsFirst(r.trace, chunks);
    NewMessageSame(r, AfterChunk(r, chunks[0]));
  }

  lemma EncodeFirst(chunks: seq<seq<byte>>)
    requires Acceptable(chunks) && chunks != []
    ensures 0 < |chunks[0]| <= MAX_CHUNK && Acceptable(chunks[1..]) &&
      Encode(chunks) == ChunkBytes(chunks[0]) + Encode(chunks[1..])
  {
    hide ChunkBytes;
  }

  lemma AfterChunkIs(r: Run, chunk: seq<byte>)
    ensures var r1 := AfterChunk(r, chunk);
      r1.stop == r.stop && r1.pend == r.pend && r1.c == r.c.(state := ChunkSizeStart, contentLength := 0) &&
      r1.trace == r.trace + [Data(BodyData, chunk)] && r1.used == r.used + |ChunkBytes(chunk)|
  {
    hide ChunkBytes;
  }

  lemma ReportsFirst(t: seq<Event>, chunks: seq<seq<byte>>)
    requires chunks != []
    ensures t + [Data(BodyData, chunks[0])] + Reports(chunks[1..]) == t + Reports(chunks)
  {
  }

  lemma NewMessageSame(r: Run, r1: Run)
    requires r1.c == r.c.(state := ChunkSizeStart, contentLength := 0)
    ensures AfterLast(r1).c == AfterLast(r).c
  {
  }

  lemma {:induction false} ReportsMerged(chunks: seq<seq<byte>>)
    ensures Norm(Reports(chunks)) == (if chunks == [] then []
      else [Data(BodyData, Concat(chunks))]) + [Notify(MessageComplete)]
    decreases |chunks|
  {
    var t := Reports(chunks);
    if chunks == [] {
      assert t[1..] == [] && Norm(t[1..]) == [];
    } else {
      ReportsMerged(chunks[1..]);
      assert t[1..] == Reports(chunks[1..]);
      var n := Norm(t[1..]);
      if chunks[1..] == [] {
        assert n == [Notify(MessageComplete)];
        assert Concat(chunks) == chunks[0];
      } else {
        assert n[1..] == [Notify(MessageComplete)];
      }
    }
  }

  /**
   A body encoded in chunks comes back: however the encoding is cut into buffers, all bytes are consumed, the
   body is what is reported, and one message is complete.
   */
  lemma ChunkedRoundTrip(c: Core, chunks: seq<seq<byte>>, bufs: seq<seq<byte>>, skip: bool)
    requires c.errno == OK && c.state.ChunkSizeStart? && Acceptable(chunks)
    requires Concat(bufs) == Encode(chunks) && forall i :: 0 <= i < |bufs| ==> bufs[i] != []
    ensures var all := ExecuteAll(c, bufs, skip);
      all.used == |Encode(chunks)| && all.c.errno == OK && all.c.state == NewMessage(all.c) &&
      Norm(all.trace) == (if chunks == [] then [] else [Data(BodyData, Concat(chunks))]) + [Notify(MessageComplete)]
  {
    hide *;
    WholeEncoding(c, chunks, skip);
    ReportsMerged(chunks);
    NotEmpty(bufs);
    AnyCut(c, bufs, skip);
  }

  lemma NotEmpty(bufs: seq<seq<byte>>)
    ensures bufs == [] ==> Concat(bufs) == []
  {
  }

  lemma WholeEncoding(c: Core, chunks: seq<seq<byte>>, skip: bool)
    requires c.errno == OK && c.state.ChunkSizeStart? && Acceptable(chunks)
    ensures Encode(chunks) != [] && Exec(Start(c), Encode(chunks), skip).stop == Going
    ensures var whole := Execute(c, Encode(chunks), skip);
      whole.used == |Encode(chunks)| && whole.c.errno == OK && whole.c.state == NewMessage(whole.c) &&
        whole.trace == Reports(chunks)
  {
    hide *;
    StartsClosed(c);
    ChunksRun(Start(c), chunks, skip);
    EncodeNotEmpty(chunks);
    LastCore(Start(c));
    WholeIs(c, Encode(chunks), skip);
    assert [] + Reports(chunks) == Reports(chunks);
  }

  lemma StartsClosed(c: Core)
    requires c.state.ChunkSizeStart?
    ensures Start(c) == Run(c, Closed, [], Going, 0)
  {
  }

  lemma LastCore(r: Run)
    ensures AfterLast(r).c.state == NewMessage(AfterLast(r).c) && AfterLast(r).c.errno == r.c.errno
  {
  }

  /** A call that ends outside any token gives what the run gives. */
  lemma WholeIs(c: Core, s: seq<byte>, skip: bool)
    requires c.errno == OK && s != []
    requires Exec(Start(c), s, skip).stop == Going && Exec(Start(c), s, skip).pend.Closed?
    ensures var whole := Execute(c, s, skip); var f := Exec(Start(c), s, skip);
      whole.c == f.c && whole.used == f.used && whole.trace == f.trace
  {
    hide Exec;
    assert Exec(Start(c), s, skip).trace + [] == Exec(Start(c), s, skip).trace;
  }

  lemma EncodeNotEmpty(chunks: seq<seq<byte>>)
    ensures Encode(chunks) != []
  {
    if chunks != [] { assert |ChunkBytes(chunks[0])| > 0; }
  }

  /** A body announced with its length: exactly that many bytes are reported, whatever follows them. */
  lemma LengthRun(r: Run, body: seq<byte>, rest: seq<byte>, skip: bool)
    requires r.stop == Going && r.pend.Closed? && r.c.state.BodyIdentity? && r.c.contentLength == |body| > 0
    ensures var c := r.c.(contentLength := 0, state := MessageDone);
      Exec(r, body + rest, skip) ==
      Exec(Run(c.(state := NewMessage(c)), Closed, r.trace + [Data(BodyData, body), Notify(MessageComplete)], Going,
        r.used + |body|),
           rest, skip)
  {
    hide *;
    var n := |body|;
    var data := body + rest;
    var z := r.(used := 0);
    var r1 := if n > 1 then BodyRead(z, BodyIdentity, 1, data[0..0 + n - 1]) else z;
    var r2, r3 := LengthRead(r, body), LengthOver(r, body);
    LengthBytes(z, r1, body, rest, n);
    LengthPlaces(r, body);
    LastRun(z, r1, r.c, data, 0, n, skip);
    DoneStep(r2, data[n - 1], r3, skip);
    ExecOnce(r2, data[n - 1..], skip);
    ExecAfter([], r.used, z, data, skip);
    ExecAfter([], r.used, r3, rest, skip);
  }

  function LengthRead(r: Run, body: seq<byte>): Run
    requires body != []
  {
    Run(r.c.(contentLength := 0, state := MessageDone), Closed, r.trace + [Data(BodyData, body)], Going, |body| - 1)
  }

  function LengthOver(r: Run, body: seq<byte>): Run
    requires body != []
  {
    var c := r.c.(contentLength := 0, state := MessageDone);
    Run(c.(state := NewMessage(c)), Closed, r.trace + [Data(BodyData, body), Notify(MessageComplete)], Going, |body|)
  }

  lemma LengthPlaces(r: Run, body: seq<byte>)
    requires r.stop == Going && r.pend.Closed? && body != []
    ensures var z, r2, r3 := r.(used := 0), LengthRead(r, body), LengthOver(r, body);
      var c := r.c.(contentLength := 0, state := MessageDone);
      After([], r.used, z) == r && r2.c.state.MessageDone? && r2.pend.Closed? && r2.stop == Going &&
      r3 == Run(r2.c.(state := NewMessage(r2.c)), Closed, r2.trace + [Notify(MessageComplete)], Going, r2.used + 1) &&
      After([], r.used, r3) ==
        Run(c.(state := NewMessage(c)), Closed, r.trace + [Data(BodyData, body), Notify(MessageComplete)], Going,
          r.used + |body|) &&
      r2 == Run(c, Closed, z.trace + [Data(BodyData, body)], Going, 0 + |body| - 1)
  {
    hide NewMessage;
    assert [] + r.trace == r.trace;
    var t := r.trace + [Data(BodyData, body), Notify(MessageComplete)];
    assert [] + t == t;
    assert r.trace + [Data(BodyData, body)] + [Notify(MessageComplete)] == t;
  }

  lemma LengthBytes(z: Run, r1: Run, body: seq<byte>, rest: seq<byte>, n: nat)
    requires n == |body| > 0 && z.pend.Closed?
    requires r1 == if n > 1 then BodyRead(z, BodyIdentity, 1, (body + rest)[0..0 + n - 1]) else z
    ensures var data := body + rest;
      data[0..] == data && data[0 + n - 1..] != [] && data[n - 1..][0] == data[n - 1] && data[n - 1..][1..] == rest &&
      (r1.pend.Open? ==> r1.pend.kind == BodyData) &&
        (if r1.pend.Open? then r1.pend.bytes else []) + [data[0 + n - 1]] == body
  {
    LengthData(body, rest, n);
    assert [] + body[..n - 1] == body[..n - 1];
    assert n == 1 ==> [] + [body[0]] == body;
  }

  lemma LengthData(body: seq<byte>, rest: seq<byte>, n: nat)
    requires n == |body| > 0
    ensures var data := body + rest;
      data[0..] == data && data[0..0 + n - 1] == body[..n - 1] && data[n - 1] == body[n - 1] &&
        data[n - 1..] == [body[n - 1]] + rest &&
      data[n - 1..][1..] == rest && body[..n - 1] + [body[n - 1]] == body
  {
    var data := body + rest;
    assert data[n - 1..] == [body[n - 1]] + rest;
    assert ([body[n - 1]] + rest)[1..] == rest;
  }

  lemma DoneStep(r2: Run, ch: byte, r3: Run, skip: bool)
    requires r2.c.state.MessageDone? && r2.pend.Closed?
    requires r3 == Run(r2.c.(state := NewMessage(r2.c)), Closed, r2.trace + [Notify(MessageComplete)], Going,
      r2.used + 1)
    ensures Step(r2.c, ch, skip).next == Consume && Apply(r2, Step(r2.c, ch, skip), ch) == r3
  {
    hide NewMessage;
    assert r2.trace + [] + [Notify(MessageComplete)] == r2.trace + [Notify(MessageComplete)];
  }

  lemma LengthRoundTrip(c: Core, body: seq<byte>, bufs: seq<seq<byte>>, skip: bool)
    requires c.errno == OK && c.state.BodyIdentity? && c.contentLength == |body| > 0
    requires Concat(bufs) == body && forall i :: 0 <= i < |bufs| ==> bufs[i] != []
    ensures var all := ExecuteAll(c, bufs, skip);
      all.used == |body| && all.c.errno == OK && Norm(all.trace) == [Data(BodyData, body), Notify(MessageComplete)]
  {
    LengthRun(Start(c), body, [], skip);
    assert body + [] == body;
    assert bufs == [] ==> Concat(bufs) == [];
    AnyCut(c, bufs, skip);
    var t := [Data(BodyData, body), Notify(MessageComplete)];
    assert [] + t + [] == t;
    assert t[1..] == [Notify(MessageComplete)] && t[1..][1..] == [];
    assert Norm(t[1..]) == [Notify(MessageComplete)];
  }

  // ---- What a cut can change ---------------------------------------------------------

  /** The parser in the middle of the method GET, and after it. */
  function Got(i: nat, s: State): Core
  {
    Fresh(Init(Request)).(verb := GET, index := i, state := s)
  }

  function GotRun(i: nat, s: State): Run
  {
    Run(Got(i, s), Closed, [Notify(MessageBegin)], Going, i)
  }

  lemma GetSteps()
    ensures Step(Init(Request), 71, false) == Eat(Got(1, ReqMethod)).(note := Some(MessageBegin))
    ensures Step(Got(1, ReqMethod), 69, false) == Eat(Got(2, ReqMethod)) &&
      Step(Got(2, ReqMethod), 84, false) == Eat(Got(3, ReqMethod))
    ensures Step(Got(3, ReqMethod), SP, false) == Eat(Got(4, ReqSpacesBeforeUrl))
    ensures Step(Got(4, ReqSpacesBeforeUrl), SLASH, false) == Eat(Got(4, ReqPath)).(mark := Some(UrlData))
  {
    FirstOfGet();
    RestOfGet();
    PathOfGet();
  }

  lemma FirstOfGet()
    ensures Step(Init(Request), 71, false) == Eat(Got(1, ReqMethod)).(note := Some(MessageBegin))
  {
  }

  lemma RestOfGet()
    ensures Step(Got(1, ReqMethod), 69, false) == Eat(Got(2, ReqMethod)) &&
      Step(Got(2, ReqMethod), 84, false) == Eat(Got(3, ReqMethod))
    ensures Step(Got(3, ReqMethod), SP, false) == Eat(Got(4, ReqSpacesBeforeUrl))
  {
    assert MethodName(GET) == "GET";
  }

  lemma PathOfGet()
    ensures Step(Got(4, ReqSpacesBeforeUrl), SLASH, false) == Eat(Got(4, ReqPath)).(mark := Some(UrlData))
  {
  }

  lemma GetApplies()
    ensures Apply(Start(Init(Request)), Eat(Got(1, ReqMethod)).(note := Some(MessageBegin)), 71) == GotRun(1, ReqMethod)
    ensures Apply(GotRun(4, ReqSpacesBeforeUrl), Eat(Got(4, ReqPath)).(mark := Some(UrlData)), SLASH) ==
      Run(Got(4, ReqPath), Open(UrlData, [SLASH]), [Notify(MessageBegin)], Going, 5)
    ensures Start(Init(Request)).stop == Going
  {
    var t := [Notify(MessageBegin)];
    assert [] + [] + t == t && t + [] + [] == t && [] + [SLASH] == [SLASH];
  }

  lemma GetBytes()
    ensures var s := [71, 69, 84, SP, SLASH]; s[0] == 71 && s[1..] == [69] + ([84] + ([SP] + [SLASH]))
    ensures [SLASH][0] == SLASH && [SLASH][1..] == [] && [1] != []
  {
  }

  lemma GotByte(i: nat, s: State, ch: byte, rest: seq<byte>, s': State)
    requires Step(Got(i, s), ch, false) == Eat(Got(i + 1, s'))
    ensures Exec(GotRun(i, s), [ch] + rest, false) == Exec(GotRun(i + 1, s'), rest, false)
  {
    hide Step, Exec, Got;
    PlainByte(GotRun(i, s), ch, rest, false, Eat(Got(i + 1, s')));
  }

  lemma GetFails(r: Run)
    requires r == Run(Got(4, ReqPath), Open(UrlData, [SLASH]), [Notify(MessageBegin)], Going, 5)
    ensures Exec(r, [], false) == r && Exec(r, [1], false).stop == Failed && Exec(r, [1], false).trace == r.trace
  {
    assert Step(Got(4, ReqPath), 1, false).next == Fail;
    FailSilent(Got(4, ReqPath), 1, false);
    hide Step, Got;
    assert r.trace + [] + [] == r.trace;
  }

  lemma GetStarts()
    ensures var r := Start(Init(Request));
      r.stop == Going && r.c == Init(Request) && GotRun(4, ReqSpacesBeforeUrl).stop == Going
    ensures GotRun(4, ReqSpacesBeforeUrl).c == Got(4, ReqSpacesBeforeUrl) &&
      Eat(Got(1, ReqMethod)).(note := Some(MessageBegin)).next == Consume
    ensures Eat(Got(4, ReqPath)).(mark := Some(UrlData)).next == Consume && Got(4, ReqPath).state == ReqPath
    ensures Init(Request).errno == OK
  {
  }

  /** The request "GET /" cut off, and then a byte no URL may hold: uncut, the client never hears of the slash. */
  lemma CutCanMatter()
    ensures LosesToken(Init(Request), [71, 69, 84, SP, SLASH], [1], false)
    ensures var c, a, b := Init(Request), [71, 69, 84, SP, SLASH], [1];
      var first := Execute(c, a, false);
      Norm(Execute(c, a + b, false).trace) != Norm(first.trace + Execute(first.c, b, false).trace)
  {
    hide *;
    var r5 := Run(Got(4, ReqPath), Open(UrlData, [SLASH]), [Notify(MessageBegin)], Going, 5);
    GetSteps();
    GetApplies();
    GetBytes();
    GetStarts();
    GetFails(r5);
    ExecOnce(Start(Init(Request)), [71, 69, 84, SP, SLASH], false);
    GotByte(1, ReqMethod, 69, [84] + ([SP] + [SLASH]), ReqMethod);
    GotByte(2, ReqMethod, 84, [SP] + [SLASH], ReqMethod);
    GotByte(3, ReqMethod, SP, [SLASH], ReqSpacesBeforeUrl);
    ExecOnce(GotRun(4, ReqSpacesBeforeUrl), [SLASH], false);
    Loses(Init(Request), [71, 69, 84, SP, SLASH], [1], r5);
    CutIndependence(Init(Request), [71, 69, 84, SP, SLASH], [1], false);
  }

  lemma Loses(c: Core, a: seq<byte>, b: seq<byte>, r: Run)
    requires r == Exec(Start(c), a, false) && r.stop == Going && r.pend.Open? && r.c.state == ReqPath && b != [] &&
      b[0] == 1
    ensures LosesToken(c, a, b, false)
  {
    hide Exec, Start;
  }
}
