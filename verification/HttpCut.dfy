/** When cutting the input in two changes what is reported: a condition on the state at the cut and on the bytes after
    it. */
module HttpCut {
  import opened HttpTypes
  import opened HttpStep
  import opened HttpRun

  // ---- The condition ---------------------------------------------------------------------

  /** A field name is broken off by a byte that is neither part of it nor the colon. */
  predicate FieldBreaks(b: seq<byte>)
  {
    b != [] && if Token(b[0]) != 0 then FieldBreaks(b[1..]) else b[0] != COLON
  }

  /** A content length is broken off by a byte that is no digit, or by one digit too many. */
  predicate LengthBreaks(n: nat, b: seq<byte>)
    decreases |b|
  {
    b != [] && b[0] != CR && b[0] != LF &&
    if b[0] == SP then LengthBreaks(n, b[1..])
    else !IsNum(b[0]) || (ULLONG_MAX - 10) / 10 < n || LengthBreaks(n * 10 + (b[0] - 48), b[1..])
  }

  /** A URL is broken off by a byte that it may not hold there, or by its end where it may not end. */
  predicate UrlBreaks(s: State, b: seq<byte>)
    decreases |b|
  {
    b != [] &&
    if b[0] == SP || b[0] == CR || b[0] == LF then EarlyUrl(s)
    else ParseUrlChar(s, b[0]) == Dead || UrlBreaks(ParseUrlChar(s, b[0]), b[1..])
  }

  /** The bytes break off the token that is open in this state. */
  predicate Breaks(c: Core, b: seq<byte>)
  {
    match c.state
    case HeaderField => FieldBreaks(b)
    case HeaderValue => c.header.ContentLength? && LengthBreaks(c.contentLength, b)
    case ChunkData => (var n := if c.contentLength > 1 then c.contentLength else 1; |b| > n && b[n] != CR)
    case ChunkDataAlmostDone => b != [] && b[0] != CR
    case _ => (EarlyUrl(c.state) || LateUrl(c.state)) && UrlBreaks(c.state, b)
  }

  /** The first buffer ends in the middle of a token, and the second breaks it off. */
  predicate LosesToken(c: Core, a: seq<byte>, b: seq<byte>, skip: bool)
  {
    var first := Exec(Start(c), a, skip);
    first.stop == Going && first.pend.Open? && Breaks(first.c, b)
  }

  // ---- It is the right one ----------------------------------------------------------------

  /** The token of kind k, open in this state, meets its end in an error. */
  predicate Broken(c: Core, b: seq<byte>, skip: bool)
    decreases |b|
  {
    b != [] &&
    var o := Step(c, b[0], skip);
    if o.flush.Some? then false else o.next == Fail || Broken(o.c, b[1..], skip)
  }

  lemma {:induction false} TraceGrows(r: Run, b: seq<byte>, skip: bool)
    ensures |Exec(r, b, skip).trace| >= |r.trace|
    decreases |b|, Rank(r.c.state)
  {
    if r.stop == Going && b != [] {
      var o := Step(r.c, b[0], skip);
      assert |Apply(r, o, b[0]).trace| >= |r.trace|;
      hide Step, Apply;
      if o.next == Again {
        AgainDescends(r.c, b[0], skip);
        TraceGrows(Apply(r, o, b[0]), b, skip);
      } else {
        TraceGrows(Apply(r, o, b[0]), b[1..], skip);
      }
    }
  }

  /** What a byte does to a run in the middle of a token. */
  lemma OpenStep(r: Run, ch: byte, skip: bool)
    requires r.stop == Going && r.pend.Open? && PendOk(r.c.state, r.pend)
    ensures var o := Step(r.c, ch, skip); var r' := Apply(r, o, ch);
      (o.flush.Some? ==> |r'.trace| > |r.trace|) &&
      (o.flush.None? && o.next == Fail ==> r'.stop == Failed && r'.trace == r.trace) &&
      (o.flush.None? && o.next != Fail ==>
        o.next == Consume && r'.stop == Going && r'.trace == r.trace && r'.pend.Open? && PendOk(r'.c.state, r'.pend) &&
          r'.c == o.c)
  {
    SameKind(r.c.state, r.pend);
    TokenStep(r.c, ch, skip, r.pend.kind);
    ContinuesIs(r.c, Step(r.c, ch, skip), r.pend.kind);
    hide Step, Continues, Inside;
    var o := Step(r.c, ch, skip);
    assert r.trace + [] + [] == r.trace;
    if o.flush.None? && o.next == Consume { SameKindBack(o.c.state, Apply(r, o, ch).pend); }
  }

  lemma SameKind(s: State, p: Pend)
    requires p.Open? && PendOk(s, p)
    ensures PendOk(s, Open(p.kind, []))
  {
  }

  lemma SameKindBack(s: State, p: Pend)
    ensures p.Open? && PendOk(s, Open(p.kind, [])) ==> PendOk(s, p)
  {
  }

  lemma ContinuesIs(c: Core, o: Out, k: Kind)
    requires Continues(c, o, k)
    ensures (o.mark.Some? ==> o.mark.value == k) && (o.flush.Some? ==> o.flush.value == k) && o.next != Leave
    ensures o.flush.None? ==>
      o.note.None? && o.next != Again && !o.whole && (o.next == Consume ==> PendOk(o.c.state, Open(k, [])))
  {
  }

  /** A run that fails without a word has met a broken token. */
  lemma {:induction false} BrokenIff(r: Run, b: seq<byte>, skip: bool)
    requires r.stop == Going && r.pend.Open? && PendOk(r.c.state, r.pend)
    ensures Exec(r, b, skip).stop == Failed && Exec(r, b, skip).trace == r.trace <==> Broken(r.c, b, skip)
    decreases |b|
  {
    if b != [] {
      var o := Step(r.c, b[0], skip);
      var r' := Apply(r, o, b[0]);
      OpenStep(r, b[0], skip);
      var rest := if o.next == Again then b else b[1..];
      assert Exec(r, b, skip) == Exec(r', rest, skip) by { ExecOnce(r, b, skip); }
      TraceGrows(r', rest, skip);
      BrokenOne(r.c, b, skip);
      hide *;
      if o.flush.None? {
        if o.next == Fail { ExecStopped(r', rest, skip); } else { BrokenIff(r', rest, skip); }
      }
    }
  }

  lemma BrokenOne(c: Core, b: seq<byte>, skip: bool)
    requires b != []
    ensures var o := Step(c, b[0], skip);
      Broken(c, b, skip) == (o.flush.None? && (o.next == Fail || Broken(o.c, b[1..], skip)))
  {
    hide Step;
  }

  lemma {:induction false} FieldBroken(c: Core, b: seq<byte>, skip: bool)
    requires c.state.HeaderField?
    ensures Broken(c, b, skip) <==> FieldBreaks(b)
    decreases |b|
  {
    if b != [] {
      BrokenOne(c, b, skip);
      assert Step(c, b[0], skip) == StepField(c, b[0]);
      FieldStep(c, b[0]);
      hide Step, StepField, Broken, Token;
      if Token(b[0]) != 0 { FieldBroken(StepField(c, b[0]).c, b[1..], skip); }
    }
  }

  lemma FieldStep(c: Core, ch: byte)
    requires c.state.HeaderField?
    ensures var o := StepField(c, ch);
      if Token(ch) != 0 then o.flush.None? && o.next == Consume && o.c.state.HeaderField?
      else if ch == COLON then o.flush.Some? else o.flush.None? && o.next == Fail
  {
  }

  lemma {:induction false} ValueBroken(c: Core, b: seq<byte>, skip: bool)
    requires c.state.HeaderValue?
    ensures Broken(c, b, skip) <==> c.header.ContentLength? && LengthBreaks(c.contentLength, b)
    decreases |b|
  {
    if b != [] {
      BrokenOne(c, b, skip);
      assert Step(c, b[0], skip) == StepValue(c, b[0]);
      ValueStep(c, b[0]);
      hide Step, StepValue, Broken, ValueNext;
      if b[0] != CR && b[0] != LF &&
        StepValue(c, b[0]).next != Fail { ValueBroken(StepValue(c, b[0]).c, b[1..], skip); }
    }
  }

  predicate ValueGoesOn(c: Core, ch: byte, o: Out)
  {
    if !c.header.ContentLength? then o.next == Consume && !o.c.header.ContentLength?
    else if ch == SP then o.next == Consume && o.c == c
    else if !IsNum(ch) || (ULLONG_MAX - 10) / 10 < c.contentLength then o.next == Fail
    else o.next == Consume && o.c.header.ContentLength? && o.c.contentLength == c.contentLength * 10 + (ch - 48)
  }

  lemma ValueStep(c: Core, ch: byte)
    requires c.state.HeaderValue?
    ensures var o := StepValue(c, ch);
      (ch == CR || ch == LF ==> o.flush.Some?) &&
        (ch != CR && ch != LF ==> o.flush.None? && o.c.state.HeaderValue? && ValueGoesOn(c, ch, o))
  {
    ValueNextKeeps(c, ch);
    if !c.header.ContentLength? { OtherValue(c, ch); }
    hide AfterToken, MatchWord;
  }

  lemma OtherValue(c: Core, ch: byte)
    requires !c.header.ContentLength?
    ensures ValueNext(c, ch).next == Consume && !ValueNext(c, ch).c.header.ContentLength?
  {
  }

  lemma {:induction false} UrlBroken(c: Core, b: seq<byte>, skip: bool)
    requires EarlyUrl(c.state) || LateUrl(c.state)
    ensures Broken(c, b, skip) <==> UrlBreaks(c.state, b)
    decreases |b|
  {
    if b != [] {
      BrokenOne(c, b, skip);
      UrlIs(c, b[0], skip);
      UrlEnds(c, b[0]);
      hide Step, StepUrl, Broken, ParseUrlChar, EarlyUrl, LateUrl;
      if StepUrl(c, b[0]).flush.None? && StepUrl(c, b[0]).next != Fail { UrlBroken(StepUrl(c, b[0]).c, b[1..], skip); }
    }
  }

  lemma UrlIs(c: Core, ch: byte, skip: bool)
    requires EarlyUrl(c.state) || LateUrl(c.state)
    ensures Step(c, ch, skip) == StepUrl(c, ch)
  {
    hide StepUrl;
  }

  lemma UrlEnds(c: Core, ch: byte)
    requires EarlyUrl(c.state) || LateUrl(c.state)
    ensures var o := StepUrl(c, ch);
      if ch == SP || ch == CR || ch == LF
        then (if EarlyUrl(c.state) then o.next == Fail && o.flush.None? else o.flush.Some?)
      else
        o.flush.None? &&
        (if ParseUrlChar(c.state, ch) == Dead then o.next == Fail
         else
           o.next == Consume && o.c.state == ParseUrlChar(c.state, ch) &&
           (EarlyUrl(o.c.state) || LateUrl(o.c.state)))
  {
    UrlStays(c.state, ch);
    hide ParseUrlChar;
  }

  lemma UrlStays(s: State, ch: byte)
    requires EarlyUrl(s) || LateUrl(s)
    ensures ParseUrlChar(s, ch) == Dead || EarlyUrl(ParseUrlChar(s, ch)) || LateUrl(ParseUrlChar(s, ch))
  {
  }

  lemma {:induction false} BodyBroken(c: Core, b: seq<byte>, skip: bool)
    requires InBody(c.state)
    ensures Broken(c, b, skip) <==> Breaks(c, b)
    decreases |b|
  {
    if b != [] {
      BrokenOne(c, b, skip);
      assert Step(c, b[0], skip) == StepBody(c, b[0]);
      hide Step, Broken;
      if !c.state.ChunkDataAlmostDone? &&
        StepBody(c, b[0]).flush.None? { BodyBroken(StepBody(c, b[0]).c, b[1..], skip); }
    }
  }

  lemma {:induction false} StatusBroken(c: Core, b: seq<byte>, skip: bool)
    requires c.state.ResStatus?
    ensures !Broken(c, b, skip)
    decreases |b|
  {
    if b != [] {
      BrokenOne(c, b, skip);
      assert Step(c, b[0], skip) == StepStatus(c, b[0]);
      hide Step, Broken;
      if StepStatus(c, b[0]).flush.None? { StatusBroken(StepStatus(c, b[0]).c, b[1..], skip); }
    }
  }

  lemma BreaksIff(c: Core, p: Pend, b: seq<byte>, skip: bool)
    requires p.Open? && PendOk(c.state, p)
    ensures Broken(c, b, skip) <==> Breaks(c, b)
  {
    hide Broken;
    if c.state.HeaderField? {
      FieldBroken(c, b, skip);
    } else if c.state.HeaderValue? {
      ValueBroken(c, b, skip);
    } else if c.state.ResStatus? {
      StatusBroken(c, b, skip);
    } else if InBody(c.state) {
      BodyBroken(c, b, skip);
    } else {
      UrlBroken(c, b, skip);
    }
  }

  /**
   Cutting a buffer changes neither the parser's state nor the error nor the bytes consumed. It changes what is reported
   exactly if the cut is in the middle of a token that the second buffer breaks off: the uncut run never reports that
   token's first piece.
   */
  lemma CutIndependence(c: Core, a: seq<byte>, b: seq<byte>, skip: bool)
    requires c.errno == OK && a != [] && b != [] && Exec(Start(c), a, skip).stop != Left
    ensures var first := Execute(c, a, skip); var second := Execute(first.c, b, skip);
      var whole := Execute(c, a + b, skip);
      whole.c == second.c && whole.used == first.used + second.used &&
      (Norm(whole.trace) == Norm(first.trace + second.trace) <==> !LosesToken(c, a, b, skip))
  {
    CutCompared(c, a, b, skip);
    StartOk(c);
    ExecOk(Start(c), a, skip);
    var r := Exec(Start(c), a, skip);
    assert RunOk(r);
    hide Exec, Execute, Norm, Breaks, Start;
    if r.stop == Going && r.pend.Open? {
      BrokenIff(r, b, skip);
      BreaksIff(r.c, r.pend, b, skip);
    }
  }
}
