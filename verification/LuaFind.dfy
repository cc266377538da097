/** string.find and string.match: the leftmost match, by the matcher or by a plain search. */
module LuaFind {
  import opened Options
  import opened LuaChars
  import opened LuaPattern
  import opened LuaDefects
  import opened LuaMatch

  datatype Capture = Text(bytes: seq<byte>) | Position(n: nat)

  /** What the script sees: nil, both ends counted from 1 with the captures, or the captures alone. */
  datatype Result = Nil | Span(first: nat, last: nat, captures: seq<Capture>) | Captures(captures: seq<Capture>)
      | Raised(e: Error)

  predicate IsSpecial(c: byte)
  {
    c == CARET || c == DOLLAR || c == STAR || c == PLUS || c == OPTION || c == DOT || c == OPEN || c == LEFT ||
      c == ESC || c == DASH
  }

  /** No special character before the first zero byte, where strpbrk stops. */
  predicate NoSpecials(pat: seq<byte>)
  {
    forall k :: 0 <= k < |pat| && 0 !in pat[..k] ==> !IsSpecial(pat[k])
  }

  predicate Occurs(s: seq<byte>, i: nat, w: seq<byte>)
  {
    i + |w| <= |s| && s[i..i + |w|] == w
  }

  /** posrelat, less one, within the subject. */
  function Start(pos: int, len: nat): (i: nat)
    ensures i <= len
    ensures 1 <= pos <= len + 1 ==> i == pos - 1
    ensures pos < 0 <= len + pos ==> i == len + pos
    ensures len + pos < 0 || pos == 0 ==> i == 0
    ensures pos > len + 1 ==> i == len
  {
    var q := if pos < 0 then pos + len + 1 else pos;
    if q <= 0 then 0 else if q - 1 > len then len else q - 1
  }

  /** push_onecapture */
  function Value(src: seq<byte>, c: Cap): Capture
    requires CapOk(c, |src|) && c.len != CAP_UNFINISHED
  {
    if c.len == CAP_POSITION then Position(c.init + 1) else Text(src[c.init..c.init + c.len])
  }

  ghost predicate Values(src: seq<byte>, caps: seq<Cap>, r: seq<Capture>)
    requires CapsOk(caps, |src|)
  {
    |r| == |caps| && forall l :: 0 <= l < |r| ==> caps[l].len != CAP_UNFINISHED && r[l] == Value(src, caps[l])
  }

  /** memchr: the first such byte among the n from lo on, or -1. */
  method MemChr(s: seq<byte>, lo: nat, n: nat, c: byte) returns (k: int)
    requires lo + n <= |s|
    ensures k == -1 ==> c !in s[lo..lo + n]
    ensures k != -1 ==> lo <= k < lo + n && s[k] == c && c !in s[lo..k]
  {
    k := lo;
    while k < lo + n
      invariant lo <= k <= lo + n && c !in s[lo..k]
    {
      if s[k] == c {
        return;
      }
      k := k + 1;
    }
    return -1;
  }

  /** lmemfind: where the word first occurs, or -1 if it does not. */
  method LMemFind(s: seq<byte>, w: seq<byte>) returns (k: int)
    ensures k == -1 ==> forall i: nat :: !Occurs(s, i, w)
    ensures k != -1 ==> 0 <= k <= |s| && Occurs(s, k, w) && forall i: nat :: i < k ==> !Occurs(s, i, w)
  {
    if |w| == 0 {
      return 0;
    } else if |w| > |s| {
      return -1;
    }
    var l2, at: nat := |w| - 1, 0;
    var l1: int := |s| - l2;
    while l1 > 0
      invariant l1 + at + l2 == |s| && l1 >= 0
      invariant forall i: nat :: i < at ==> !Occurs(s, i, w)
    {
      var init := MemChr(s, at, l1, w[0]);
      NotBefore(s, w, at, if init == -1 then at + l1 else init);
      if init == -1 {
        return -1;
      }
      init := init + 1;
      if s[init..init + l2] == w[1..] {
        assert s[init - 1..init - 1 + |w|] == [w[0]] + w[1..] == w;
        return init - 1;
      }
      assert !Occurs(s, init - 1, w) by { OccursStep(s, init - 1, w); }
      l1 := l1 - (init - at);
      at := init;
    }
    return -1;
  }

  lemma NotBefore(s: seq<byte>, w: seq<byte>, lo: nat, hi: nat)
    requires |w| > 0 && lo <= hi <= |s| && w[0] !in s[lo..hi]
    ensures forall i: nat :: lo <= i < hi ==> !Occurs(s, i, w)
  {
    forall i: nat | lo <= i < hi ensures !Occurs(s, i, w) {
      OccursStep(s, i, w);
      assert s[lo..hi][i - lo] == s[i];
    }
  }

  /** strpbrk, as it is used here. */
  method FindsNoSpecial(pat: seq<byte>) returns (r: bool)
    ensures r == NoSpecials(pat)
  {
    var k := 0;
    while k < |pat| && pat[k] != 0
      invariant k <= |pat| && 0 !in pat[..k] && forall m :: 0 <= m < k ==> !IsSpecial(pat[m])
    {
      if IsSpecial(pat[k]) {
        return false;
      }
      k := k + 1;
    }
    assert forall m :: k < m < |pat| ==> pat[..m][k] == 0;
    return true;
  }

  /** push_captures: all captures or, if there are none and it is wanted, the whole match. */
  method PushCaptures(ms: MatchState, whole: bool, s: nat, e: nat) returns (ok: bool, r: seq<Capture>)
    requires ms.Valid() && s <= e <= |ms.env.src| && CapsOk(ms.Caps(), |ms.env.src|)
    ensures ok <==> true !in Opens(ms.Caps())
    ensures ok && (ms.level > 0 || !whole) ==> Values(ms.env.src, ms.Caps(), r)
    ensures ok && ms.level == 0 && whole ==> r == [Text(ms.env.src[s..e])]
  {
    r := [];
    if whole && ms.level == 0 {
      return true, [Text(ms.env.src[s..e])];
    }
    var i := 0;
    while i < ms.level
      invariant i <= ms.level && Values(ms.env.src, ms.Caps()[..i], r)
    {
      var c := ms.capture[i];
      assert ms.Caps()[i] == c && Opens(ms.Caps())[i] == (c.len == CAP_UNFINISHED);
      if c.len == CAP_UNFINISHED {
        return false, [];
      }
      r := r + [Value(ms.env.src, c)];
      i := i + 1;
    }
    assert ms.Caps()[..i] == ms.Caps();
    return true, r;
  }

  /** Where the pattern begins, behind its anchor. */
  function Body(pat: seq<byte>): (p: nat)
    ensures p <= |pat|
  {
    if Byte(pat, 0) == CARET then 1 else 0
  }

  /** The first place at which the search does not try any more. */
  function Limit(env: Env, init: nat): (hi: nat)
  {
    if Byte(env.pat, 0) == CARET then init + 1 else |env.src| + 1
  }

  /** A plain search gives the leftmost occurrence. */
  ghost predicate PlainResult(src: seq<byte>, pat: seq<byte>, init: nat, r: Result)
  {
    match r
    case Nil => forall k :: init <= k ==> !Occurs(src, k, pat)
    case Span(first, last, caps) =>
      caps == [] && init < first && Occurs(src, first - 1, pat) && last == first - 1 + |pat| &&
      forall k :: init <= k < first - 1 ==> !Occurs(src, k, pat)
    case _ => false
  }

  /** The leftmost place where the pattern matches is k; the match ends at j, with these captures. */
  ghost predicate Leftmost(env: Env, init: nat, k: nat, j: nat, caps: seq<Cap>)
    requires init <= |env.src|
  {
    init <= k < Limit(env, init) && k <= |env.src| && Fits(env, k, Body(env.pat), [], j, caps) &&
    NoFitFrom(env, init, k, Body(env.pat), [])
  }

  ghost predicate PatternResult(env: Env, init: nat, find: bool, r: Result)
    requires init <= |env.src|
  {
    match r
    case Nil => NoFitFrom(env, init, Limit(env, init), Body(env.pat), [])
    case Span(first, last, values) =>
      find && first > 0 &&
      exists caps ::
        Leftmost(env, init, first - 1, last, caps) && CapsOk(caps, |env.src|) && Values(env.src, caps, values)
    case Captures(values) =>
      !find &&
      exists k: nat, j: nat, caps ::
        Leftmost(env, init, k, j, caps) && k <= j <= |env.src| && CapsOk(caps, |env.src|) &&
        (if caps == [] then values == [Text(env.src[k..j])] else Values(env.src, caps, values))
    case Raised(e) =>
      if e == TooDeep then |env.pat| - Body(env.pat) >= MAX_LEVEL else Defect(env.pat, Body(env.pat), []) == Some(e)
  }

  /** str_find_aux */
  method StrFindAux(src: seq<byte>, pat: seq<byte>, pos: int, find: bool, plain: bool) returns (r: Result)
    ensures if find && (plain || NoSpecials(pat)) then PlainResult(src, pat, Start(pos, |src|), r)
            else PatternResult(Env(src, pat), Start(pos, |src|), find, r)
  {
    var init := Start(pos, |src|);
    var literal := plain;
    if find && !plain {
      literal := FindsNoSpecial(pat);
    }
    if find && literal {
      r := PlainSearch(src, pat, init);
    } else {
      r := PatternSearch(src, pat, init, find);
    }
  }

  method PlainSearch(src: seq<byte>, pat: seq<byte>, init: nat) returns (r: Result)
    requires init <= |src|
    ensures PlainResult(src, pat, init, r)
  {
    var k := LMemFind(src[init..], pat);
    forall i: nat ensures Occurs(src[init..], i, pat) <==> Occurs(src, init + i, pat) {
      if init + i + |pat| <= |src| { assert src[init..][i..i + |pat|] == src[init + i..init + i + |pat|]; }
    }
    forall m: nat | init <= m ensures Occurs(src, m, pat) <==> Occurs(src[init..], m - init, pat) {
      assert m == init + (m - init);
    }
    if k == -1 {
      return Nil;
    }
    return Span(init + k + 1, init + k + |pat|, []);
  }

  method PatternSearch(src: seq<byte>, pat: seq<byte>, init: nat, find: bool) returns (r: Result)
    requires init <= |src|
    ensures PatternResult(Env(src, pat), init, find, r)
  {
    var ms := new MatchState(src, pat);
    var anchor, p := false, 0;
    if Byte(pat, 0) == CARET {
      anchor, p := true, 1;
    }
    var s1 := init;
    ghost var env := Env(src, pat);
    while true
      invariant init <= s1 <= |src| && s1 < Limit(env, init) && NoFitFrom(env, init, s1, p, [])
      invariant ms.Valid() && fresh(ms) && fresh(ms.capture) && ms.env == env
      decreases |src| - s1
    {
      ms.level, ms.depth := 0, 0;
      assert ms.Caps() == [];
      var res := ms.Match(s1, p);
      Explain(env, s1, p);
      match res {
        case Failed(e) =>
          return Raised(e);
        case NotFound =>
          assert NoFitFrom(env, init, s1 + 1, p, []);
          if s1 == |src| || anchor {
            return Nil;
          }
          s1 := s1 + 1;
        case Found(e) =>
          ghost var caps := ms.Caps();
          assert Leftmost(env, init, s1, e, caps);
          var ok, values := PushCaptures(ms, !find, s1, e);
          if !ok {
            return Raised(Unfinished);
          }
          return if find then Span(s1 + 1, e, values) else Captures(values);
      }
    }
  }

  /** What is known of the matcher when it starts without captures. */
  lemma Explain(env: Env, i: nat, p: nat)
    requires i <= |env.src| && p <= |env.pat|
    ensures var r := LuaPattern.Match(env, i, p, [], 0);
      Decides(env, i, p, [], r) && Explained(env.pat, p, [], |env.pat| - p, r)
  {
    MatchDecides(env, i, p, [], 0);
    MatchExplained(env, i, p, [], 0);
    assert Opens([]) == [];
  }

  // ---- The shortcut for patterns without special characters ------------------------------------

  /** From p on, the pattern has no special character, no zero and no closing parenthesis. */
  predicate Literal(pat: seq<byte>, p: nat)
  {
    forall k :: p <= k < |pat| ==> !IsSpecial(pat[k]) && pat[k] != 0 && pat[k] != CLOSE
  }

  /** Such a pattern matches exactly itself. */
  lemma {:induction false} LiteralFits(env: Env, i: nat, p: nat, caps: seq<Cap>, j: nat, c: seq<Cap>)
    requires i <= |env.src| && p <= |env.pat| && CapsOk(caps, i) && Literal(env.pat, p)
    ensures Fits(env, i, p, caps, j, c) <==> Occurs(env.src, i, env.pat[p..]) && j == i + |env.pat| - p && c == caps
    decreases |env.pat| - p
  {
    if p == |env.pat| {
      assert FormAt(env.pat, p).Ended?;
    } else {
      assert FormAt(env.pat, p).Item? && ItemEnd(env.pat, p) == At(p + 1);
      PlainIs(env, i, p, p + 1, caps, j, c);
      if i < |env.src| {
        LiteralFits(env, i + 1, p + 1, caps, j, c);
        OccursStep(env.src, i, env.pat[p..]);
        assert env.pat[p..][1..] == env.pat[p + 1..];
      }
    }
  }

  lemma OccursStep(s: seq<byte>, i: nat, w: seq<byte>)
    requires i < |s| && |w| > 0
    ensures Occurs(s, i, w) <==> s[i] == w[0] && Occurs(s, i + 1, w[1..])
  {
    if i + |w| <= |s| {
      assert s[i..i + |w|] == [s[i]] + s[i + 1..i + 1 + |w[1..]|];
      assert w == [w[0]] + w[1..];
    }
  }

  /** The first zero or closing parenthesis of the pattern from p on is at q, and what stands before it is plain. */
  predicate StopsAt(pat: seq<byte>, p: nat, q: nat)
  {
    p <= q < |pat| && (pat[q] == 0 || pat[q] == CLOSE) &&
    forall k :: p <= k < q ==> !IsSpecial(pat[k]) && pat[k] != 0 && pat[k] != CLOSE
  }

  /** Then the pattern matches at most what stands before it. */
  lemma {:induction false} StopsEarly(env: Env, i: nat, p: nat, q: nat, j: nat, c: seq<Cap>)
    requires i <= |env.src| && StopsAt(env.pat, p, q)
    ensures Fits(env, i, p, [], j, c) ==> j == i + q - p
    decreases |env.pat| - p
  {
    if p < q {
      assert FormAt(env.pat, p).Item? && ItemEnd(env.pat, p) == At(p + 1);
      PlainIs(env, i, p, p + 1, [], j, c);
      if i < |env.src| {
        StopsEarly(env, i + 1, p + 1, q, j, c);
      }
    } else if env.pat[q] == 0 {
      assert FormAt(env.pat, p).Ended?;
    } else {
      assert FormAt(env.pat, p).CloseCapture?;
    }
  }

  lemma {:induction false} FirstStop(pat: seq<byte>, p: nat) returns (q: nat)
    requires p <= |pat| && NoSpecials(pat) && 0 !in pat[..p] && !Literal(pat, p)
    ensures StopsAt(pat, p, q)
    decreases |pat| - p
  {
    assert p < |pat|;
    if pat[p] == 0 || pat[p] == CLOSE {
      q := p;
    } else {
      assert pat[..p + 1] == pat[..p] + [pat[p]];
      q := FirstStop(pat, p + 1);
    }
  }

  /** On every subject, the pattern matches where it occurs as a word, and nowhere else. */
  ghost predicate MeansItself(pat: seq<byte>)
  {
    forall src, i: nat, j, c :: i <= |src| ==>
      (Fits(Env(src, pat), i, 0, [], j, c) <==> Occurs(src, i, pat) && j == i + |pat| && c == [])
  }

  /**
   The plain search that replaces the matcher for a pattern without special characters gives the same answers exactly if
   the pattern has neither a zero byte nor a closing parenthesis.
   */
  lemma ShortcutIsExact(pat: seq<byte>)
    requires NoSpecials(pat)
    ensures MeansItself(pat) <==> Literal(pat, 0)
  {
    hide Fits;
    if Literal(pat, 0) {
      forall src, i: nat, j, c | i <= |src|
        ensures Fits(Env(src, pat), i, 0, [], j, c) <==> Occurs(src, i, pat) && j == i + |pat| && c == []
      {
        LiteralFits(Env(src, pat), i, 0, [], j, c);
        assert pat[0..] == pat;
      }
    } else {
      var q := FirstStop(pat, 0);
      StopsEarly(Env(pat, pat), 0, 0, q, |pat|, []);
      assert Occurs(pat, 0, pat);
    }
  }

  /** The pattern ")" occurs in the subject ")", but the matcher rejects it. */
  lemma ParenthesisDiffers()
    ensures NoSpecials([CLOSE]) && !MeansItself([CLOSE]) && Occurs([CLOSE], 0, [CLOSE])
    ensures LuaPattern.Match(Env([CLOSE], [CLOSE]), 0, 0, [], 0) == Err(NothingToClose)
  {
    assert !Literal([CLOSE], 0) by { assert [CLOSE][0] == CLOSE; }
    ShortcutIsExact([CLOSE]);
    hide MeansItself;
    assert FormAt([CLOSE], 0).CloseCapture?;
  }

  /** The pattern of an "a" and a zero byte does not occur in the subject "a", but the matcher matches it there. */
  lemma ZeroDiffers()
    ensures NoSpecials([97, 0]) && !MeansItself([97, 0]) && forall i: nat :: !Occurs([97], i, [97, 0])
    ensures Fits(Env([97], [97, 0]), 0, 0, [], 1, [])
  {
    assert !Literal([97, 0], 0) by { assert [97, 0][1] == 0; }
    ShortcutIsExact([97, 0]);
    hide MeansItself;
    var env := Env([97], [97, 0]);
    assert FormAt(env.pat, 0).Item? && ItemEnd(env.pat, 0) == At(1) && FormAt(env.pat, 1).Ended?;
    PlainIs(env, 0, 0, 1, [], 1, []);
  }
}
