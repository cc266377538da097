/** Which errors the matcher can raise: they can be read off the pattern alone. */
module LuaDefects {
  import opened Options
  import opened LuaChars
  import opened LuaPattern

  /** Which of the captures are still open. */
  function Opens(caps: seq<Cap>): (r: seq<bool>)
    ensures |r| == |caps| && forall l :: 0 <= l < |r| ==> r[l] == (caps[l].len == CAP_UNFINISHED)
  {
    seq(|caps|, l requires 0 <= l < |caps| => caps[l].len == CAP_UNFINISHED)
  }

  function LastTrue(open: seq<bool>): (l: int)
    ensures -1 <= l < |open| && (l >= 0 ==> open[l]) && forall m :: l < m < |open| ==> !open[m]
  {
    if open == [] then -1 else if open[|open| - 1] then |open| - 1 else LastTrue(open[..|open| - 1])
  }

  /** The first thing wrong with the pattern from p on, when these captures have been begun before it. */
  function Defect(pat: seq<byte>, p: nat, open: seq<bool>): Option<Error>
    requires p <= |pat|
    decreases |pat| - p
  {
    FormFits(pat, p);
    match FormAt(pat, p)
    case OpenPosition => if |open| >= MAX_CAPTURES then Some(TooManyCaptures) else Defect(pat, p + 2, open + [false])
    case OpenCapture => if |open| >= MAX_CAPTURES then Some(TooManyCaptures) else Defect(pat, p + 1, open + [true])
    case CloseCapture =>
      if LastTrue(open) < 0 then Some(NothingToClose) else Defect(pat, p + 1, open[LastTrue(open) := false])
    case Balanced =>
      if Byte(pat, p + 2) == 0 || Byte(pat, p + 3) == 0 then Some(MissingArguments) else Defect(pat, p + 4, open)
    case Edge => if Byte(pat, p + 2) != LEFT then Some(MissingFrontier) else ItemDefect(pat, p + 2, false, open)
    case BackReference =>
      var l := Byte(pat, p + 1) - 49;
      if l < 0 || l >= |open| || open[l] then Some(BadIndex) else Defect(pat, p + 2, open)
    case Ended => AtTheEnd(open)
    case AtEnd => AtTheEnd(open)
    case Item => ItemDefect(pat, p, true, open)
  }

  function AtTheEnd(open: seq<bool>): Option<Error>
  {
    if true in open then Some(Unfinished) else None
  }

  function ItemDefect(pat: seq<byte>, p: nat, suffixed: bool, open: seq<bool>): Option<Error>
    requires p < |pat| && Byte(pat, p) != 0
    decreases |pat| - p, 0
  {
    match ItemEnd(pat, p)
    case Wrong(e) => Some(e)
    case At(ep) => Defect(pat, if suffixed && IsSuffix(Byte(pat, ep)) then ep + 1 else ep, open)
  }

  predicate IsSuffix(c: byte)
  {
    c == OPTION || Repeats(c)
  }

  /** An error is the first defect of the pattern, or comes from nesting that deep; a hit shows that there is no
      defect. */
  ghost predicate Explained(pat: seq<byte>, p: nat, open: seq<bool>, depth: int, r: Res)
    requires p <= |pat|
  {
    match r
    case Hit(_, c) => Defect(pat, p, open) == AtTheEnd(Opens(c))
    case Miss => true
    case Err(e) => if e == TooDeep then depth >= MAX_LEVEL else Defect(pat, p, open) == Some(e)
  }

  lemma {:induction false} LastOpenIs(caps: seq<Cap>)
    ensures LastTrue(Opens(caps)) == LastOpen(caps)
  {
  }

  lemma {:induction false} MatchExplained(env: Env, i: nat, p: nat, caps: seq<Cap>, d: nat)
    requires i <= |env.src| && p <= |env.pat| && CapsOk(caps, i)
    ensures Explained(env.pat, p, Opens(caps), d + |env.pat| - p, Match(env, i, p, caps, d))
    decreases |env.pat| - p, 1
  {
    if d + 1 <= MAX_LEVEL { GoExplained(env, i, p, caps, d + 1); }
  }

  lemma {:induction false} GoExplained(env: Env, i: nat, p: nat, caps: seq<Cap>, d: nat)
    requires i <= |env.src| && p <= |env.pat| && CapsOk(caps, i)
    ensures Explained(env.pat, p, Opens(caps), d + |env.pat| - p - 1, Go(env, i, p, caps, d))
    decreases |env.pat| - p, 0, 2
  {
    FormFits(env.pat, p);
    match FormAt(env.pat, p) {
      case OpenPosition => OpenExplained(env, i, p, p + 2, CAP_POSITION, caps, d);
      case OpenCapture => OpenExplained(env, i, p, p + 1, CAP_UNFINISHED, caps, d);
      case CloseCapture => CloseExplained(env, i, p, caps, d);
      case Balanced => BalancedExplained(env, i, p, caps, d);
      case Edge => EdgeExplained(env, i, p, caps, d);
      case BackReference =>
        var l := Byte(env.pat, p + 1) - 49;
        if 0 <= l < |caps| && caps[l].len != CAP_UNFINISHED && Again(env.src, caps[l], i) {
          GoExplained(env, i + caps[l].len, p + 2, caps, d);
        }
      case Ended =>
      case AtEnd =>
      case Item => ItemExplained(env, i, p, caps, d);
    }
  }

  lemma {:induction false} OpenExplained(env: Env, i: nat, p: nat, p': nat, len: int, caps: seq<Cap>, d: nat)
    requires i <= |env.src| && p < p' <= |env.pat| && CapsOk(caps, i)
    requires if FormAt(env.pat, p).OpenPosition? then p' == p + 2 && len == CAP_POSITION
             else FormAt(env.pat, p).OpenCapture? && p' == p + 1 && len == CAP_UNFINISHED
    ensures Explained(env.pat, p, Opens(caps), d + |env.pat| - p - 1, Go(env, i, p, caps, d))
    decreases |env.pat| - p, 0, 1
  {
    if |caps| < MAX_CAPTURES {
      var more := caps + [Cap(i, len)];
      MatchExplained(env, i, p', more, d);
      assert Opens(more) == Opens(caps) + [len == CAP_UNFINISHED];
      assert Go(env, i, p, caps, d) == Match(env, i, p', more, d);
      assert Defect(env.pat, p, Opens(caps)) == Defect(env.pat, p', Opens(more));
    }
  }

  lemma {:induction false} CloseExplained(env: Env, i: nat, p: nat, caps: seq<Cap>, d: nat)
    requires i <= |env.src| && p < |env.pat| && FormAt(env.pat, p).CloseCapture? && CapsOk(caps, i)
    ensures Explained(env.pat, p, Opens(caps), d + |env.pat| - p - 1, Go(env, i, p, caps, d))
    decreases |env.pat| - p, 0, 1
  {
    LastOpenIs(caps);
    var l := LastOpen(caps);
    if l >= 0 {
      MatchExplained(env, i, p + 1, Closed(caps, l, i), d);
      assert Opens(Closed(caps, l, i)) == Opens(caps)[l := false];
    }
  }

  lemma {:induction false} BalancedExplained(env: Env, i: nat, p: nat, caps: seq<Cap>, d: nat)
    requires i <= |env.src| && p + 2 <= |env.pat| && FormAt(env.pat, p).Balanced? && CapsOk(caps, i)
    ensures Explained(env.pat, p, Opens(caps), d + |env.pat| - p - 1, GoBalanced(env, i, p, caps, d))
    decreases |env.pat| - p, 0, 1
  {
    var open, close := Byte(env.pat, p + 2), Byte(env.pat, p + 3);
    if open != 0 && close != 0 && Byte(env.src, i) == open {
      var k := Balance(env.src, i + 1, open, close, 1);
      if k >= 0 { GoExplained(env, k, p + 4, caps, d); }
    }
  }

  lemma {:induction false} EdgeExplained(env: Env, i: nat, p: nat, caps: seq<Cap>, d: nat)
    requires i <= |env.src| && p + 2 <= |env.pat| && FormAt(env.pat, p).Edge? && CapsOk(caps, i)
    ensures Explained(env.pat, p, Opens(caps), d + |env.pat| - p - 1, GoEdge(env, i, p, caps, d))
    decreases |env.pat| - p, 0, 1
  {
    if Byte(env.pat, p + 2) == LEFT {
      match ItemEnd(env.pat, p + 2) {
        case Wrong(e) =>
        case At(ep) => if Frontier(env, i, p + 2, ep) { GoExplained(env, i, ep, caps, d); }
      }
    }
  }

  lemma {:induction false} ItemExplained(env: Env, i: nat, p: nat, caps: seq<Cap>, d: nat)
    requires i <= |env.src| && p < |env.pat| && FormAt(env.pat, p).Item? && Byte(env.pat, p) != 0 && CapsOk(caps, i)
    ensures Explained(env.pat, p, Opens(caps), d + |env.pat| - p - 1, GoItem(env, i, p, caps, d))
    decreases |env.pat| - p, 0, 1
  {
    match ItemEnd(env.pat, p) {
      case Wrong(e) =>
      case At(ep) =>
        var s, m := Byte(env.pat, ep), Takes(env, i, p, ep);
        if s == OPTION {
          if m { MatchExplained(env, i + 1, ep + 1, caps, d); }
          GoExplained(env, i, ep + 1, caps, d);
        } else if s == STAR {
          LongestExplained(env, i, Stretch(env, i, p, ep), ep + 1, caps, d);
        } else if s == PLUS {
          if m { LongestExplained(env, i + 1, Stretch(env, i + 1, p, ep), ep + 1, caps, d); }
        } else if s == DASH {
          ShortestExplained(env, i, p, ep, caps, d);
        } else if m {
          GoExplained(env, i + 1, ep, caps, d);
        }
    }
  }

  lemma {:induction false} LongestExplained(env: Env, i: nat, n: nat, p: nat, caps: seq<Cap>, d: nat)
    requires i + n <= |env.src| && p <= |env.pat| && CapsOk(caps, i)
    ensures Explained(env.pat, p, Opens(caps), d + |env.pat| - p, Longest(env, i, n, p, caps, d))
    decreases |env.pat| - p, 2, n
  {
    MatchExplained(env, i + n, p, caps, d);
    if n > 0 { LongestExplained(env, i, n - 1, p, caps, d); }
  }

  lemma {:induction false} ShortestExplained(env: Env, i: nat, p: nat, ep: nat, caps: seq<Cap>, d: nat)
    requires i <= |env.src| && p < ep < |env.pat| && CapsOk(caps, i)
    ensures Explained(env.pat, ep + 1, Opens(caps), d + |env.pat| - (ep + 1), Shortest(env, i, p, ep, caps, d))
    decreases |env.pat| - (ep + 1), 2, |env.src| - i
  {
    MatchExplained(env, i, ep + 1, caps, d);
    if Takes(env, i, p, ep) { ShortestExplained(env, i + 1, p, ep, caps, d); }
  }

  /**
   A pattern without defects and shorter than the greatest nesting depth raises no error on any subject: the matcher
   then
   finds a match exactly if the pattern allows one.
   */
  lemma SoundPatternsDecide(env: Env, i: nat, p: nat)
    requires i <= |env.src| && p <= |env.pat| && |env.pat| - p < MAX_LEVEL && Defect(env.pat, p, []) == None
    ensures !Match(env, i, p, [], 0).Err?
    ensures Match(env, i, p, [], 0).Hit? <==> !NoFit(env, i, p, [])
  {
    MatchExplained(env, i, p, [], 0);
    MatchDecides(env, i, p, [], 0);
    assert Opens([]) == [];
    var r := Match(env, i, p, [], 0);
    if r.Hit? {
      var j, c := r.end, r.caps;
      assert Fits(env, i, p, [], j, c);
    }
  }
}
