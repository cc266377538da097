/** What a Lua pattern means: which ends and captures it allows, and which of these the matcher prefers. */
module LuaPattern {
  import opened LuaChars

  /** The length of a capture that is still open, and of one that only notes a position. */
  const CAP_UNFINISHED: int := -1
  const CAP_POSITION: int := -2

  const MAX_CAPTURES: nat := 32
  const MAX_LEVEL: nat := 200

  datatype Cap = Cap(init: nat, len: int)

  /** The subject and the pattern. */
  datatype Env = Env(src: seq<byte>, pat: seq<byte>)

  datatype Res = Hit(end: nat, caps: seq<Cap>) | Miss | Err(e: Error)

  /** Captures lie before the place the matcher has come to. */
  predicate CapsOk(caps: seq<Cap>, i: nat)
  {
    |caps| <= MAX_CAPTURES && forall l :: 0 <= l < |caps| ==> CapOk(caps[l], i)
  }

  predicate CapOk(c: Cap, i: nat)
  {
    c.init <= i && (c.len == CAP_UNFINISHED || c.len == CAP_POSITION || (0 <= c.len && c.init + c.len <= i))
  }

  /** capture_to_close: the last capture still open, or -1. */
  function LastOpen(caps: seq<Cap>): (l: int)
    ensures -1 <= l < |caps| && (l >= 0 ==> caps[l].len == CAP_UNFINISHED)
    ensures forall m :: l < m < |caps| ==> caps[m].len != CAP_UNFINISHED
  {
    if caps == [] then -1
    else if caps[|caps| - 1].len == CAP_UNFINISHED then |caps| - 1
    else LastOpen(caps[..|caps| - 1])
  }

  function Closed(caps: seq<Cap>, l: nat, i: nat): (r: seq<Cap>)
    requires l < |caps| && CapsOk(caps, i)
    ensures CapsOk(r, i) && |r| == |caps|
  {
    caps[l := Cap(caps[l].init, i - caps[l].init)]
  }

  /** The bytes from i on are those of the capture; a position is never found again. */
  predicate Again(src: seq<byte>, c: Cap, i: nat)
    requires CapOk(c, i) && c.len != CAP_UNFINISHED && i <= |src|
  {
    c.len >= 0 && c.len <= |src| - i && src[c.init..c.init + c.len] == src[i..i + c.len]
  }

  /** Where the bracket opened before i, with this depth, is closed; -1 if it is not. */
  function Balance(src: seq<byte>, i: nat, open: byte, close: byte, depth: nat): (r: int)
    requires i <= |src| && depth > 0
    ensures r == -1 || i < r <= |src|
    decreases |src| - i
  {
    if i == |src| then -1
    else if src[i] == close then (if depth == 1 then i + 1 else Balance(src, i + 1, open, close, depth - 1))
    else if src[i] == open then Balance(src, i + 1, open, close, depth + 1)
    else Balance(src, i + 1, open, close, depth)
  }

  /** A frontier: the byte before is not in the set, this one is; outside the subject there are zeros. */
  predicate Frontier(env: Env, i: nat, p: nat, ep: nat)
    requires p < ep
  {
    !MatchSet(if i == 0 then 0 else Byte(env.src, i - 1), env.pat, p, ep - 1) &&
      MatchSet(Byte(env.src, i), env.pat, p, ep - 1)
  }

  /** The item from p to ep takes the byte at i. */
  predicate Takes(env: Env, i: nat, p: nat, ep: nat)
    requires p < ep
  {
    i < |env.src| && Single(env.src[i], env.pat, p, ep)
  }

  /** How many bytes from i on the item takes. */
  function Stretch(env: Env, i: nat, p: nat, ep: nat): (n: nat)
    requires p < ep && i <= |env.src|
    ensures i + n <= |env.src|
    ensures forall k :: i <= k < i + n ==> Takes(env, k, p, ep)
    ensures !Takes(env, i + n, p, ep)
    decreases |env.src| - i
  {
    if Takes(env, i, p, ep) then 1 + Stretch(env, i + 1, p, ep) else 0
  }

  /** What stands at a place of the pattern. */
  datatype Form = OpenPosition | OpenCapture | CloseCapture | Balanced | Edge | BackReference | Ended | AtEnd | Item

  function FormAt(pat: seq<byte>, p: nat): Form
  {
    var c, d := Byte(pat, p), Byte(pat, p + 1);
    if c == OPEN then (if d == CLOSE then OpenPosition else OpenCapture)
    else if c == CLOSE then CloseCapture
    else if c == ESC && d == 98 then Balanced
    else if c == ESC && d == 102 then Edge
    else if c == ESC && IsDigit(d) then BackReference
    else if c == 0 then Ended
    else if c == DOLLAR && d == 0 then AtEnd
    else Item
  }

  lemma FormFits(pat: seq<byte>, p: nat)
    ensures
      (FormAt(pat, p).OpenPosition? || FormAt(pat, p).Balanced? || FormAt(pat, p).Edge? ||
       FormAt(pat, p).BackReference?) ==>
      p + 2 <= |pat|
    ensures !FormAt(pat, p).Ended? ==> p < |pat| && Byte(pat, p) != 0
  {
  }

  // ---- The relation ------------------------------------------------------------------------

  /** From i on, the pattern from p on may end at j, its captures then being caps'. */
  ghost predicate Fits(env: Env, i: nat, p: nat, caps: seq<Cap>, j: nat, caps': seq<Cap>)
    requires i <= |env.src| && p <= |env.pat| && CapsOk(caps, i)
    decreases |env.pat| - p, 1
  {
    FormFits(env.pat, p);
    match FormAt(env.pat, p)
    case OpenPosition =>
      |caps| < MAX_CAPTURES && Fits(env, i, p + 2, caps + [Cap(i, CAP_POSITION)], j, caps')
    case OpenCapture =>
      |caps| < MAX_CAPTURES && Fits(env, i, p + 1, caps + [Cap(i, CAP_UNFINISHED)], j, caps')
    case CloseCapture =>
      LastOpen(caps) >= 0 && Fits(env, i, p + 1, Closed(caps, LastOpen(caps), i), j, caps')
    case Balanced => BalancedFits(env, i, p, caps, j, caps')
    case Edge => EdgeFits(env, i, p, caps, j, caps')
    case BackReference =>
      var l := Byte(env.pat, p + 1) - 49;
      0 <= l < |caps| && caps[l].len != CAP_UNFINISHED && Again(env.src, caps[l], i) &&
      Fits(env, i + caps[l].len, p + 2, caps, j, caps')
    case Ended => j == i && caps' == caps
    case AtEnd => i == |env.src| && j == i && caps' == caps
    case Item => ItemFits(env, i, p, caps, j, caps')
  }

  /** A balanced stretch, from an opening byte to where as many closing ones have come. */
  ghost predicate BalancedFits(env: Env, i: nat, p: nat, caps: seq<Cap>, j: nat, caps': seq<Cap>)
    requires i <= |env.src| && p + 2 <= |env.pat| && CapsOk(caps, i)
    decreases |env.pat| - p, 0
  {
    var open, close := Byte(env.pat, p + 2), Byte(env.pat, p + 3);
    open != 0 && close != 0 && i < |env.src| && env.src[i] == open &&
    var k := Balance(env.src, i + 1, open, close, 1);
    k >= 0 && Fits(env, k, p + 4, caps, j, caps')
  }

  ghost predicate EdgeFits(env: Env, i: nat, p: nat, caps: seq<Cap>, j: nat, caps': seq<Cap>)
    requires i <= |env.src| && p + 2 <= |env.pat| && CapsOk(caps, i)
    decreases |env.pat| - p, 0
  {
    Byte(env.pat, p + 2) == LEFT &&
    var r := ItemEnd(env.pat, p + 2);
    r.At? && Frontier(env, i, p + 2, r.p) && Fits(env, i, r.p, caps, j, caps')
  }

  /** The rest of the pattern matches from one of the places from lo to hi. */
  ghost predicate Somewhere(env: Env, lo: nat, hi: nat, p: nat, caps: seq<Cap>, j: nat, caps': seq<Cap>)
    requires hi <= |env.src| && p <= |env.pat| && CapsOk(caps, lo)
    decreases |env.pat| - p, 2
  {
    exists k :: lo <= k <= hi && Fits(env, k, p, caps, j, caps')
  }

  /** One item with its suffix: any allowed number of bytes that it takes, and then the rest. */
  ghost predicate ItemFits(env: Env, i: nat, p: nat, caps: seq<Cap>, j: nat, caps': seq<Cap>)
    requires i <= |env.src| && p < |env.pat| && Byte(env.pat, p) != 0 && CapsOk(caps, i)
    decreases |env.pat| - p, 0
  {
    var r := ItemEnd(env.pat, p);
    r.At? &&
    var ep, s := r.p, Byte(env.pat, r.p);
    if s == OPTION then
      (Takes(env, i, p, ep) && Fits(env, i + 1, ep + 1, caps, j, caps')) || Fits(env, i, ep + 1, caps, j, caps')
    else if s == STAR || s == DASH then Somewhere(env, i, i + Stretch(env, i, p, ep), ep + 1, caps, j, caps')
    else if s == PLUS
      then Takes(env, i, p, ep) && Somewhere(env, i + 1, i + Stretch(env, i, p, ep), ep + 1, caps, j, caps')
    else Takes(env, i, p, ep) && Fits(env, i + 1, ep, caps, j, caps')
  }

  /** The pattern from p on matches nothing that starts at i. */
  ghost predicate NoFit(env: Env, i: nat, p: nat, caps: seq<Cap>)
    requires i <= |env.src| && p <= |env.pat| && CapsOk(caps, i)
  {
    forall j, c :: !Fits(env, i, p, caps, j, c)
  }

  /** Nor anything that starts at one of the places from lo up to, but without, hi. */
  ghost predicate NoFitFrom(env: Env, lo: nat, hi: nat, p: nat, caps: seq<Cap>)
    requires hi <= |env.src| + 1 && p <= |env.pat| && CapsOk(caps, lo)
  {
    forall k, j, c :: lo <= k < hi ==> !Fits(env, k, p, caps, j, c)
  }

  /** The rest matches so from the last of the places from lo to hi that allow it to match at all. */
  ghost predicate Greedy(env: Env, lo: nat, hi: nat, p: nat, caps: seq<Cap>, j: nat, caps': seq<Cap>)
    requires hi <= |env.src| && p <= |env.pat| && CapsOk(caps, lo)
  {
    exists k :: lo <= k <= hi && Fits(env, k, p, caps, j, caps') && NoFitFrom(env, k + 1, hi + 1, p, caps)
  }

  /** The rest matches so from the first of them. */
  ghost predicate Lazy(env: Env, lo: nat, hi: nat, p: nat, caps: seq<Cap>, j: nat, caps': seq<Cap>)
    requires hi <= |env.src| && p <= |env.pat| && CapsOk(caps, lo)
  {
    exists k :: lo <= k <= hi && Fits(env, k, p, caps, j, caps') && NoFitFrom(env, lo, k, p, caps)
  }

  // ---- What the matcher prefers --------------------------------------------------------------

  /** match, entered at nesting depth d. */
  function Match(env: Env, i: nat, p: nat, caps: seq<Cap>, d: nat): (r: Res)
    requires i <= |env.src| && p <= |env.pat| && CapsOk(caps, i)
    ensures r.Hit? ==> i <= r.end <= |env.src| && CapsOk(r.caps, r.end)
    decreases |env.pat| - p, 1
  {
    if d + 1 > MAX_LEVEL then Err(TooDeep) else Go(env, i, p, caps, d + 1)
  }

  /** The body of match, where it goes on without nesting deeper. */
  function Go(env: Env, i: nat, p: nat, caps: seq<Cap>, d: nat): (r: Res)
    requires i <= |env.src| && p <= |env.pat| && CapsOk(caps, i)
    ensures r.Hit? ==> i <= r.end <= |env.src| && CapsOk(r.caps, r.end)
    decreases |env.pat| - p, 0, 2
  {
    FormFits(env.pat, p);
    match FormAt(env.pat, p)
    case OpenPosition =>
      if |caps| >= MAX_CAPTURES then Err(TooManyCaptures) else Match(env, i, p + 2, caps + [Cap(i, CAP_POSITION)], d)
    case OpenCapture =>
      if |caps| >= MAX_CAPTURES then Err(TooManyCaptures) else Match(env, i, p + 1, caps + [Cap(i, CAP_UNFINISHED)], d)
    case CloseCapture =>
      if LastOpen(caps) < 0 then Err(NothingToClose) else Match(env, i, p + 1, Closed(caps, LastOpen(caps), i), d)
    case Balanced => GoBalanced(env, i, p, caps, d)
    case Edge => GoEdge(env, i, p, caps, d)
    case BackReference =>
      var l := Byte(env.pat, p + 1) - 49;
      if l < 0 || l >= |caps| || caps[l].len == CAP_UNFINISHED then Err(BadIndex)
      else if Again(env.src, caps[l], i) then Go(env, i + caps[l].len, p + 2, caps, d)
      else Miss
    case Ended => Hit(i, caps)
    case AtEnd => if i == |env.src| then Hit(i, caps) else Miss
    case Item => GoItem(env, i, p, caps, d)
  }

  function GoBalanced(env: Env, i: nat, p: nat, caps: seq<Cap>, d: nat): (r: Res)
    requires i <= |env.src| && p + 2 <= |env.pat| && CapsOk(caps, i)
    ensures r.Hit? ==> i <= r.end <= |env.src| && CapsOk(r.caps, r.end)
    decreases |env.pat| - p, 0, 1
  {
    var open, close := Byte(env.pat, p + 2), Byte(env.pat, p + 3);
    if open == 0 || close == 0 then Err(MissingArguments)
    else if Byte(env.src, i) != open then Miss
    else
      var k := Balance(env.src, i + 1, open, close, 1);
      if k < 0 then Miss else Go(env, k, p + 4, caps, d)
  }

  function GoEdge(env: Env, i: nat, p: nat, caps: seq<Cap>, d: nat): (r: Res)
    requires i <= |env.src| && p + 2 <= |env.pat| && CapsOk(caps, i)
    ensures r.Hit? ==> i <= r.end <= |env.src| && CapsOk(r.caps, r.end)
    decreases |env.pat| - p, 0, 1
  {
    if Byte(env.pat, p + 2) != LEFT then Err(MissingFrontier)
    else
      match ItemEnd(env.pat, p + 2)
      case Wrong(e) => Err(e)
      case At(ep) => if Frontier(env, i, p + 2, ep) then Go(env, i, ep, caps, d) else Miss
  }

  function GoItem(env: Env, i: nat, p: nat, caps: seq<Cap>, d: nat): (r: Res)
    requires i <= |env.src| && p < |env.pat| && Byte(env.pat, p) != 0 && CapsOk(caps, i)
    ensures r.Hit? ==> i <= r.end <= |env.src| && CapsOk(r.caps, r.end)
    decreases |env.pat| - p, 0, 1
  {
    match ItemEnd(env.pat, p)
    case Wrong(e) => Err(e)
    case At(ep) =>
      var s, m := Byte(env.pat, ep), Takes(env, i, p, ep);
      if s == OPTION then
        var r := if m then Match(env, i + 1, ep + 1, caps, d) else Miss;
        if r.Miss? then Go(env, i, ep + 1, caps, d) else r
      else if s == STAR then Longest(env, i, Stretch(env, i, p, ep), ep + 1, caps, d)
      else if s == PLUS then (if m then Longest(env, i + 1, Stretch(env, i + 1, p, ep), ep + 1, caps, d) else Miss)
      else if s == DASH then Shortest(env, i, p, ep, caps, d)
      else if m then Go(env, i + 1, ep, caps, d)
      else Miss
  }

  /** max_expand, from n repetitions down. */
  function Longest(env: Env, i: nat, n: nat, p: nat, caps: seq<Cap>, d: nat): (r: Res)
    requires i + n <= |env.src| && p <= |env.pat| && CapsOk(caps, i)
    ensures r.Hit? ==> i <= r.end <= |env.src| && CapsOk(r.caps, r.end)
    decreases |env.pat| - p, 2, n
  {
    var r := Match(env, i + n, p, caps, d);
    if r.Miss? && n > 0 then Longest(env, i, n - 1, p, caps, d) else r
  }

  /** min_expand. */
  function Shortest(env: Env, i: nat, p: nat, ep: nat, caps: seq<Cap>, d: nat): (r: Res)
    requires i <= |env.src| && p < ep < |env.pat| && CapsOk(caps, i)
    ensures r.Hit? ==> i <= r.end <= |env.src| && CapsOk(r.caps, r.end)
    decreases |env.pat| - (ep + 1), 2, |env.src| - i
  {
    var r := Match(env, i, ep + 1, caps, d);
    if r.Miss? && Takes(env, i, p, ep) then Shortest(env, i + 1, p, ep, caps, d) else r
  }

  // ---- The matcher against the relation ---------------------------------------------------------

  /** A hit is allowed, and a miss means that nothing is. */
  ghost predicate Decides(env: Env, i: nat, p: nat, caps: seq<Cap>, r: Res)
    requires i <= |env.src| && p <= |env.pat| && CapsOk(caps, i)
  {
    (r.Hit? ==> Fits(env, i, p, caps, r.end, r.caps)) && (r.Miss? ==> NoFit(env, i, p, caps))
  }

  /**
   Unless the pattern is in error, or nests too deep, the matcher finds a match exactly if the pattern allows one, and
   what it finds is one.
   */
  lemma {:induction false} MatchDecides(env: Env, i: nat, p: nat, caps: seq<Cap>, d: nat)
    requires i <= |env.src| && p <= |env.pat| && CapsOk(caps, i)
    ensures Decides(env, i, p, caps, Match(env, i, p, caps, d))
    decreases |env.pat| - p, 1
  {
    if d + 1 <= MAX_LEVEL { GoDecides(env, i, p, caps, d + 1); }
  }

  lemma {:induction false} GoDecides(env: Env, i: nat, p: nat, caps: seq<Cap>, d: nat)
    requires i <= |env.src| && p <= |env.pat| && CapsOk(caps, i)
    ensures Decides(env, i, p, caps, Go(env, i, p, caps, d))
    decreases |env.pat| - p, 0, 3
  {
    FormFits(env.pat, p);
    match FormAt(env.pat, p) {
      case OpenPosition =>
        if |caps| < MAX_CAPTURES { MatchDecides(env, i, p + 2, caps + [Cap(i, CAP_POSITION)], d); }
      case OpenCapture =>
        if |caps| < MAX_CAPTURES { MatchDecides(env, i, p + 1, caps + [Cap(i, CAP_UNFINISHED)], d); }
      case CloseCapture =>
        if LastOpen(caps) >= 0 { MatchDecides(env, i, p + 1, Closed(caps, LastOpen(caps), i), d); }
      case Balanced => BalancedDecides(env, i, p, caps, d);
      case Edge => EdgeDecides(env, i, p, caps, d);
      case BackReference =>
        var l := Byte(env.pat, p + 1) - 49;
        if 0 <= l < |caps| && caps[l].len != CAP_UNFINISHED && Again(env.src, caps[l], i) {
          GoDecides(env, i + caps[l].len, p + 2, caps, d);
        }
      case Ended =>
      case AtEnd =>
      case Item => ItemDecides(env, i, p, caps, d);
    }
  }

  /** What a balanced item allows is what the rest allows behind it. */
  lemma BalancedIs(env: Env, i: nat, p: nat, caps: seq<Cap>, k: int, j: nat, c: seq<Cap>)
    requires i < |env.src| && p + 4 <= |env.pat| && FormAt(env.pat, p).Balanced? && CapsOk(caps, i)
    requires Byte(env.pat, p + 2) == env.src[i] != 0 && Byte(env.pat, p + 3) != 0
    requires k == Balance(env.src, i + 1, env.src[i], Byte(env.pat, p + 3), 1)
    ensures Fits(env, i, p, caps, j, c) <==> k >= 0 && Fits(env, k, p + 4, caps, j, c)
  {
    hide Balance;
    assert Fits(env, i, p, caps, j, c) <==> BalancedFits(env, i, p, caps, j, c);
  }

  lemma {:induction false} BalancedDecides(env: Env, i: nat, p: nat, caps: seq<Cap>, d: nat)
    requires i <= |env.src| && p + 2 <= |env.pat| && FormAt(env.pat, p).Balanced? && CapsOk(caps, i)
    ensures Decides(env, i, p, caps, GoBalanced(env, i, p, caps, d))
    decreases |env.pat| - p, 0, 1
  {
    var r := GoBalanced(env, i, p, caps, d);
    var open, close := Byte(env.pat, p + 2), Byte(env.pat, p + 3);
    if open != 0 && close != 0 && i < |env.src| && env.src[i] == open {
      var k := Balance(env.src, i + 1, open, close, 1);
      if k >= 0 {
        GoDecides(env, k, p + 4, caps, d);
        assert r == Go(env, k, p + 4, caps, d);
      }
      hide Fits, Go, GoBalanced, Balance, FormAt, Byte, CapsOk;
      forall j, c ensures Fits(env, i, p, caps, j, c) <==> k >= 0 && Fits(env, k, p + 4, caps, j, c) {
        BalancedIs(env, i, p, caps, k, j, c);
      }
    } else {
      assert !r.Hit?;
      forall j, c ensures !Fits(env, i, p, caps, j, c) {
        assert !BalancedFits(env, i, p, caps, j, c);
      }
    }
  }

  lemma EdgeIs(env: Env, i: nat, p: nat, caps: seq<Cap>, ep: nat, j: nat, c: seq<Cap>)
    requires i <= |env.src| && p + 2 <= |env.pat| && FormAt(env.pat, p).Edge? && CapsOk(caps, i)
    requires Byte(env.pat, p + 2) == LEFT && ItemEnd(env.pat, p + 2) == At(ep)
    ensures Fits(env, i, p, caps, j, c) <==> Frontier(env, i, p + 2, ep) && Fits(env, i, ep, caps, j, c)
  {
    hide Frontier, ItemEnd;
    assert Fits(env, i, p, caps, j, c) <==> EdgeFits(env, i, p, caps, j, c);
  }

  lemma {:induction false} EdgeDecides(env: Env, i: nat, p: nat, caps: seq<Cap>, d: nat)
    requires i <= |env.src| && p + 2 <= |env.pat| && FormAt(env.pat, p).Edge? && CapsOk(caps, i)
    ensures Decides(env, i, p, caps, GoEdge(env, i, p, caps, d))
    decreases |env.pat| - p, 0, 1
  {
    if Byte(env.pat, p + 2) == LEFT {
      match ItemEnd(env.pat, p + 2) {
        case Wrong(e) =>
        case At(ep) =>
          GoDecides(env, i, ep, caps, d);
          var r := GoEdge(env, i, p, caps, d);
          assert r == if Frontier(env, i, p + 2, ep) then Go(env, i, ep, caps, d) else Miss;
          hide Fits, Go, GoEdge, Frontier, ItemEnd, FormAt, CapsOk;
          forall j, c ensures Fits(env, i, p, caps, j, c) <==>
            Frontier(env, i, p + 2, ep) && Fits(env, i, ep, caps, j, c) {
            EdgeIs(env, i, p, caps, ep, j, c);
          }
      }
    }
  }

  /** An item at p that ends at ep. */
  predicate ItemAt(env: Env, p: nat, ep: nat)
  {
    p < ep <= |env.pat| && Byte(env.pat, p) != 0 && FormAt(env.pat, p).Item? && ItemEnd(env.pat, p) == At(ep)
  }

  predicate Repeats(suffix: byte)
  {
    suffix == STAR || suffix == PLUS || suffix == DASH
  }

  lemma PlainIs(env: Env, i: nat, p: nat, ep: nat, caps: seq<Cap>, j: nat, c: seq<Cap>)
    requires i <= |env.src| && CapsOk(caps, i) && ItemAt(env, p, ep)
    requires !Repeats(Byte(env.pat, ep)) && Byte(env.pat, ep) != OPTION
    ensures Fits(env, i, p, caps, j, c) <==> Takes(env, i, p, ep) && Fits(env, i + 1, ep, caps, j, c)
  {
    hide ItemEnd, Takes;
    assert Fits(env, i, p, caps, j, c) <==> ItemFits(env, i, p, caps, j, c);
  }

  lemma OptionIs(env: Env, i: nat, p: nat, ep: nat, caps: seq<Cap>, j: nat, c: seq<Cap>)
    requires i <= |env.src| && CapsOk(caps, i) && ItemAt(env, p, ep) && Byte(env.pat, ep) == OPTION
    ensures Fits(env, i, p, caps, j, c) <==>
      (Takes(env, i, p, ep) && Fits(env, i + 1, ep + 1, caps, j, c)) || Fits(env, i, ep + 1, caps, j, c)
  {
    hide ItemEnd, Takes;
    assert Fits(env, i, p, caps, j, c) <==> ItemFits(env, i, p, caps, j, c);
  }

  /** Where the rest can begin after a repeated item: from the first allowed count to the last. */
  ghost predicate AfterRepeat(env: Env, i: nat, p: nat, ep: nat, caps: seq<Cap>, j: nat, c: seq<Cap>)
    requires i <= |env.src| && CapsOk(caps, i) && ItemAt(env, p, ep) && Repeats(Byte(env.pat, ep))
  {
    var hi := i + Stretch(env, i, p, ep);
    if Byte(env.pat, ep) != PLUS then Somewhere(env, i, hi, ep + 1, caps, j, c)
    else Takes(env, i, p, ep) && Somewhere(env, i + 1, hi, ep + 1, caps, j, c)
  }

  /** With a suffix that repeats, the item matches exactly where the rest does after one of the allowed counts. */
  lemma RepeatIs(env: Env, i: nat, p: nat, ep: nat, caps: seq<Cap>, j: nat, c: seq<Cap>)
    requires i <= |env.src| && CapsOk(caps, i) && ItemAt(env, p, ep) && Repeats(Byte(env.pat, ep))
    ensures Fits(env, i, p, caps, j, c) <==> AfterRepeat(env, i, p, ep, caps, j, c)
  {
    hide ItemEnd, Takes, Stretch;
    assert Fits(env, i, p, caps, j, c) <==> ItemFits(env, i, p, caps, j, c);
  }

  lemma {:induction false} ItemDecides(env: Env, i: nat, p: nat, caps: seq<Cap>, d: nat)
    requires i <= |env.src| && p < |env.pat| && FormAt(env.pat, p).Item? && Byte(env.pat, p) != 0 && CapsOk(caps, i)
    ensures Decides(env, i, p, caps, GoItem(env, i, p, caps, d))
    decreases |env.pat| - p, 0, 2
  {
    match ItemEnd(env.pat, p) {
      case Wrong(e) =>
      case At(ep) =>
        if Byte(env.pat, ep) == OPTION {
          OptionDecides(env, i, p, ep, caps, d);
        } else if Repeats(Byte(env.pat, ep)) {
          RepeatDecides(env, i, p, ep, caps, d);
        } else {
          PlainDecides(env, i, p, ep, caps, d);
        }
    }
  }

  lemma {:induction false} PlainDecides(env: Env, i: nat, p: nat, ep: nat, caps: seq<Cap>, d: nat)
    requires i <= |env.src| && CapsOk(caps, i) && ItemAt(env, p, ep)
    requires !Repeats(Byte(env.pat, ep)) && Byte(env.pat, ep) != OPTION
    ensures Decides(env, i, p, caps, GoItem(env, i, p, caps, d))
    decreases |env.pat| - p, 0, 0
  {
    var m := Takes(env, i, p, ep);
    if m { GoDecides(env, i + 1, ep, caps, d); }
    assert GoItem(env, i, p, caps, d) == if m then Go(env, i + 1, ep, caps, d) else Miss;
    hide Fits, Go, GoItem, ItemEnd, Takes, CapsOk, FormAt;
    forall j, c ensures Fits(env, i, p, caps, j, c) <==> m && Fits(env, i + 1, ep, caps, j, c) {
      PlainIs(env, i, p, ep, caps, j, c);
    }
  }

  lemma {:induction false} OptionDecides(env: Env, i: nat, p: nat, ep: nat, caps: seq<Cap>, d: nat)
    requires i <= |env.src| && CapsOk(caps, i) && ItemAt(env, p, ep) && Byte(env.pat, ep) == OPTION
    ensures Decides(env, i, p, caps, GoItem(env, i, p, caps, d))
    decreases |env.pat| - p, 0, 0
  {
    if Takes(env, i, p, ep) { MatchDecides(env, i + 1, ep + 1, caps, d); }
    GoDecides(env, i, ep + 1, caps, d);
    hide Fits, Go, Match, ItemEnd, Takes, CapsOk;
    forall j, c ensures Fits(env, i, p, caps, j, c) <==>
        (Takes(env, i, p, ep) && Fits(env, i + 1, ep + 1, caps, j, c)) || Fits(env, i, ep + 1, caps, j, c) {
      OptionIs(env, i, p, ep, caps, j, c);
    }
  }

  lemma {:induction false} RepeatDecides(env: Env, i: nat, p: nat, ep: nat, caps: seq<Cap>, d: nat)
    requires i <= |env.src| && CapsOk(caps, i) && ItemAt(env, p, ep) && Repeats(Byte(env.pat, ep))
    ensures Decides(env, i, p, caps, GoItem(env, i, p, caps, d))
    decreases |env.pat| - p, 0, 1
  {
    var r := GoItem(env, i, p, caps, d);
    RepeatGoes(env, i, p, ep, caps, d);
    hide Fits, ItemEnd, CapsOk, GoItem, Stretch, Takes, AfterRepeat, FormAt, Byte, Repeats;
    forall j, c ensures Fits(env, i, p, caps, j, c) <==> AfterRepeat(env, i, p, ep, caps, j, c) {
      RepeatIs(env, i, p, ep, caps, j, c);
    }
  }

  lemma {:induction false} RepeatGoes(env: Env, i: nat, p: nat, ep: nat, caps: seq<Cap>, d: nat)
    requires i <= |env.src| && CapsOk(caps, i) && ItemAt(env, p, ep) && Repeats(Byte(env.pat, ep))
    ensures var r := GoItem(env, i, p, caps, d);
      (r.Hit? ==> AfterRepeat(env, i, p, ep, caps, r.end, r.caps)) &&
      (r.Miss? ==> forall j, c :: !AfterRepeat(env, i, p, ep, caps, j, c))
    decreases |env.pat| - p, 0, 0
  {
    var s, n, m, r := Byte(env.pat, ep), Stretch(env, i, p, ep), Takes(env, i, p, ep), GoItem(env, i, p, caps, d);
    if s == DASH {
      ShortestDecides(env, i, p, ep, caps, d);
      assert r.Miss? ==> NoFitFrom(env, i, i + n + 1, ep + 1, caps);
    } else if s == STAR {
      LongestDecides(env, i, n, ep + 1, caps, d);
      assert r.Miss? ==> NoFitFrom(env, i, i + n + 1, ep + 1, caps);
    } else if m {
      assert n == 1 + Stretch(env, i + 1, p, ep);
      LongestDecides(env, i + 1, n - 1, ep + 1, caps, d);
      assert r.Miss? ==> NoFitFrom(env, i + 1, i + n + 1, ep + 1, caps);
    }
    hide Fits, Longest, Shortest, ItemEnd, CapsOk, Stretch, Takes, GoItem;
    if r.Miss? {
      var lo := if s == PLUS then i + 1 else i;
      forall j, c ensures !AfterRepeat(env, i, p, ep, caps, j, c) {
        assert (s == PLUS && !m) || !Somewhere(env, lo, i + n, ep + 1, caps, j, c);
      }
    }
  }

  /** The greatest number of repetitions with which the rest matches is taken. */
  lemma {:induction false} LongestDecides(env: Env, i: nat, n: nat, p: nat, caps: seq<Cap>, d: nat)
    requires i + n <= |env.src| && p <= |env.pat| && CapsOk(caps, i)
    ensures var r := Longest(env, i, n, p, caps, d);
      (r.Hit? ==> Greedy(env, i, i + n, p, caps, r.end, r.caps)) && (r.Miss? ==> NoFitFrom(env, i, i + n + 1, p, caps))
    decreases |env.pat| - p, 2, n
  {
    MatchDecides(env, i + n, p, caps, d);
    if Match(env, i + n, p, caps, d).Miss? && n > 0 {
      LongestDecides(env, i, n - 1, p, caps, d);
    }
    hide Match, Fits;
  }

  /** The least number of repetitions with which the rest matches is taken. */
  lemma {:induction false} ShortestDecides(env: Env, i: nat, p: nat, ep: nat, caps: seq<Cap>, d: nat)
    requires i <= |env.src| && p < ep < |env.pat| && CapsOk(caps, i)
    ensures var r, hi := Shortest(env, i, p, ep, caps, d), i + Stretch(env, i, p, ep);
      (r.Hit? ==> Lazy(env, i, hi, ep + 1, caps, r.end, r.caps)) &&
        (r.Miss? ==> NoFitFrom(env, i, hi + 1, ep + 1, caps))
    decreases |env.pat| - (ep + 1), 2, |env.src| - i
  {
    MatchDecides(env, i, ep + 1, caps, d);
    if Match(env, i, ep + 1, caps, d).Miss? && Takes(env, i, p, ep) {
      ShortestDecides(env, i + 1, p, ep, caps, d);
    }
    hide Match, Fits, Takes, CapsOk;
  }

  /** Which of the allowed repetitions is taken: the most for `*` and `+`, the fewest for `-`, one rather than none for
      `?`. */
  lemma Prefers(env: Env, i: nat, p: nat, ep: nat, caps: seq<Cap>, d: nat)
    requires i <= |env.src| && CapsOk(caps, i) && ItemAt(env, p, ep)
    ensures var r, s, hi := Go(env, i, p, caps, d), Byte(env.pat, ep), i + Stretch(env, i, p, ep);
      r.Hit? ==>
        (s == STAR ==> Greedy(env, i, hi, ep + 1, caps, r.end, r.caps)) &&
        (s == PLUS ==> Greedy(env, i + 1, hi, ep + 1, caps, r.end, r.caps)) &&
        (s == DASH ==> Lazy(env, i, hi, ep + 1, caps, r.end, r.caps)) &&
        (s == OPTION && Takes(env, i, p, ep) && !NoFit(env, i + 1, ep + 1, caps) ==>
         Fits(env, i + 1, ep + 1, caps, r.end, r.caps))
  {
    var s := Byte(env.pat, ep);
    assert Go(env, i, p, caps, d) == GoItem(env, i, p, caps, d);
    if s == DASH {
      ShortestDecides(env, i, p, ep, caps, d);
    } else if s == STAR {
      LongestDecides(env, i, Stretch(env, i, p, ep), ep + 1, caps, d);
    } else if s == PLUS && Takes(env, i, p, ep) {
      LongestDecides(env, i + 1, Stretch(env, i + 1, p, ep), ep + 1, caps, d);
    } else if s == OPTION && Takes(env, i, p, ep) {
      MatchDecides(env, i + 1, ep + 1, caps, d);
    }
    hide Fits, Longest, Shortest, Match, ItemEnd, CapsOk;
  }
}
