/** string.find and string.match: the backtracking matcher, with its captures in one array. */
module LuaMatch {
  import opened LuaChars
  import opened LuaPattern

  /** What a call gives: an end, no match, or an error that abandons the whole search. */
  datatype Outcome = Found(end: nat) | NotFound | Failed(e: Error)

  class MatchState {
    const env: Env
    var level: nat
    var depth: nat
    const capture: array<Cap>

    ghost predicate Valid()
      reads this
    {
      level <= capture.Length == MAX_CAPTURES
    }

    ghost function Caps(): seq<Cap>
      requires Valid()
      reads this, capture
    {
      capture[..level]
    }

    /** The matcher stands at place i of the subject and place p of the pattern. */
    ghost predicate Ready(i: nat, p: nat)
      reads this, capture
    {
      Valid() && i <= |env.src| && p <= |env.pat| && CapsOk(Caps(), i)
    }

    constructor (src: seq<byte>, pat: seq<byte>)
      ensures env == Env(src, pat) && Valid() && level == 0 && depth == 0 && fresh(capture)
    {
      env := Env(src, pat);
      level, depth := 0, 0;
      capture := new Cap[MAX_CAPTURES](_ => Cap(0, 0));
    }

    /** After a hit the captures are those of the match; after a miss they, and the depth, are as before. */
    ghost predicate Gives(o: Outcome, r: Res, caps: seq<Cap>, d: nat)
      reads this, capture
    {
      Valid() &&
      match r
      case Hit(j, found) => o == Found(j) && Caps() == found && depth == d
      case Miss => o == NotFound && Caps() == caps && depth == d
      case Err(e) => o == Failed(e)
    }

    /** capture_to_close */
    method CaptureToClose() returns (l: int)
      requires Valid()
      ensures l == LastOpen(Caps())
    {
      l := level - 1;
      while l >= 0
        invariant -1 <= l < level && LastOpen(Caps()) == LastOpen(capture[..l + 1])
      {
        if capture[l].len == CAP_UNFINISHED {
          return;
        }
        assert capture[..l + 1][..l] == capture[..l];
        l := l - 1;
      }
    }

    /** matchbalance, after its first byte has been compared. */
    method MatchBalance(i: nat, open: byte, close: byte) returns (k: int)
      requires i < |env.src|
      ensures k == Balance(env.src, i + 1, open, close, 1)
    {
      var s, cont: nat := i + 1, 1;
      while s < |env.src|
        invariant i < s <= |env.src| && cont > 0
        invariant Balance(env.src, i + 1, open, close, 1) == Balance(env.src, s, open, close, cont)
      {
        if env.src[s] == close {
          cont := cont - 1;
          if cont == 0 {
            return s + 1;
          }
        } else if env.src[s] == open {
          cont := cont + 1;
        }
        s := s + 1;
      }
      return -1;
    }

    /** match_capture: the place behind the bytes of capture l, if they come again. */
    method MatchCapture(i: nat, l: int) returns (bad: bool, k: int)
      requires Valid() && i <= |env.src| && CapsOk(Caps(), i)
      ensures bad <==> l < 0 || l >= level || capture[l].len == CAP_UNFINISHED
      ensures !bad ==> k == if Again(env.src, capture[l], i) then i + capture[l].len else -1
    {
      bad := l < 0 || l >= level || capture[l].len == CAP_UNFINISHED;
      k := -1;
      if !bad {
        var c := capture[l];
        assert CapOk(Caps()[l], i);
        // A negative length is a huge number without its sign.
        if c.len >= 0 && |env.src| - i >= c.len && env.src[c.init..c.init + c.len] == env.src[i..i + c.len] {
          k := i + c.len;
        }
      }
    }

    /** The first loop of max_expand. */
    method Repetitions(s: nat, p: nat, ep: nat) returns (i: nat)
      requires s <= |env.src| && p < ep
      ensures i == Stretch(env, s, p, ep)
    {
      i := 0;
      var more := true;
      while more
        invariant s + i <= |env.src| && Stretch(env, s, p, ep) == i + if more then Stretch(env, s + i, p, ep) else 0
        decreases |env.src| - (s + i), more
      {
        more := false;
        if s + i < |env.src| {
          more := SingleMatch(env.src[s + i], env.pat, p, ep);
          if more {
            i := i + 1;
          }
        }
      }
    }

    /** max_expand */
    method MaxExpand(s: nat, p: nat, ep: nat) returns (o: Outcome)
      requires Ready(s, ep + 1) && p < ep
      modifies this`level, this`depth, capture
      ensures Gives(o, Longest(env, s, Stretch(env, s, p, ep), ep + 1, old(Caps()), old(depth)), old(Caps()),
        old(depth))
      decreases |env.pat| - (ep + 1), 3, |env.src| + 1
    {
      ghost var caps := Caps();
      var i: int := Repetitions(s, p, ep);
      ghost var n := i;
      while i >= 0
        invariant -1 <= i <= n && s + n <= |env.src| && Valid() && Caps() == caps && depth == old(depth)
        invariant i >= 0 ==>
          Longest(env, s, n, ep + 1, caps, old(depth)) == Longest(env, s, i, ep + 1, caps, old(depth))
        invariant i < 0 ==> Longest(env, s, n, ep + 1, caps, old(depth)) == Miss
      {
        o := Match(s + i, ep + 1);
        if o != NotFound {
          return;
        }
        i := i - 1;
      }
      o := NotFound;
    }

    /** min_expand */
    method MinExpand(s0: nat, p: nat, ep: nat) returns (o: Outcome)
      requires Ready(s0, ep + 1) && p < ep < |env.pat|
      modifies this`level, this`depth, capture
      ensures Gives(o, Shortest(env, s0, p, ep, old(Caps()), old(depth)), old(Caps()), old(depth))
      decreases |env.pat| - (ep + 1), 3, |env.src| + 1
    {
      ghost var caps := Caps();
      var s := s0;
      while true
        invariant s0 <= s <= |env.src| && Valid() && Caps() == caps && depth == old(depth)
        invariant Shortest(env, s0, p, ep, caps, old(depth)) == Shortest(env, s, p, ep, caps, old(depth))
        decreases |env.src| - s
      {
        o := Match(s, ep + 1);
        if o != NotFound {
          return;
        }
        var m := false;
        if s < |env.src| {
          m := SingleMatch(env.src[s], env.pat, p, ep);
        }
        if !m {
          return;
        }
        s := s + 1;
      }
    }

    /** start_capture */
    method StartCapture(s: nat, p: nat, what: int) returns (o: Outcome)
      requires Ready(s, p) && p > 0 && (what == CAP_POSITION || what == CAP_UNFINISHED)
      modifies this`level, this`depth, capture
      ensures Gives(o, if |old(Caps())| >= MAX_CAPTURES then Err(TooManyCaptures)
                       else LuaPattern.Match(env, s, p, old(Caps()) + [Cap(s, what)], old(depth)), old(Caps()),
                         old(depth))
      decreases |env.pat| - p, 3, 0
    {
      if level >= MAX_CAPTURES {
        return Failed(TooManyCaptures);
      }
      ghost var caps := Caps();
      capture[level] := Cap(s, what);
      level := level + 1;
      assert Caps() == caps + [Cap(s, what)];
      o := Match(s, p);
      if o == NotFound {
        level := level - 1;
        assert Caps() == (caps + [Cap(s, what)])[..level];
      }
    }

    /** end_capture */
    method EndCapture(s: nat, p: nat) returns (o: Outcome)
      requires Ready(s, p) && p > 0
      modifies this`level, this`depth, capture
      ensures Gives(o, if LastOpen(old(Caps())) < 0 then Err(NothingToClose)
                       else LuaPattern.Match(env, s, p, Closed(old(Caps()), LastOpen(old(Caps())), s), old(depth)),
                         old(Caps()), old(depth))
      decreases |env.pat| - p, 3, 0
    {
      ghost var caps := Caps();
      var l := CaptureToClose();
      if l < 0 {
        return Failed(NothingToClose);
      }
      capture[l] := capture[l].(len := s - capture[l].init);
      assert Caps() == Closed(caps, l, s);
      o := Match(s, p);
      if o == NotFound {
        capture[l] := capture[l].(len := CAP_UNFINISHED);
        assert Caps() == caps;
      }
    }

    /** One turn of the switch: the outcome, or the place where to go on without nesting deeper. */
    method Step(s: nat, p: nat) returns (o: Outcome, again: bool, s': nat, p': nat)
      requires Ready(s, p)
      modifies this`level, this`depth, capture
      ensures again ==>
        Valid() && GoesOn(s, p, s', p', old(Caps()), old(depth)) && Caps() == old(Caps()) && depth == old(depth)
      ensures !again ==> Gives(o, Go(env, s, p, old(Caps()), old(depth)), old(Caps()), old(depth)) && s' == s && p' == p
      decreases |env.pat| - p, 0, 3
    {
      o, again, s', p' := NotFound, false, s, p;
      var c, d := Byte(env.pat, p), Byte(env.pat, p + 1);
      if c == OPEN {
        if d == CLOSE {
          o := StartCapture(s, p + 2, CAP_POSITION);
        } else {
          o := StartCapture(s, p + 1, CAP_UNFINISHED);
        }
      } else if c == CLOSE {
        o := EndCapture(s, p + 1);
      } else if c == ESC && (d == 98 || d == 102 || IsDigit(d)) {
        o, again, s', p' := StepEsc(s, p);
      } else if c == 0 {
        o := Found(s);
      } else if c == DOLLAR && d == 0 {
        o := if s == |env.src| then Found(s) else NotFound;
      } else {
        o, again, s', p' := StepItem(s, p);
      }
    }

    /** Going on at s' and p' comes to the same. */
    ghost predicate GoesOn(s: nat, p: nat, s': nat, p': nat, caps: seq<Cap>, d: nat)
    {
      s <= s' <= |env.src| && p < p' <= |env.pat| && CapsOk(caps, s) && CapsOk(caps, s') &&
      Go(env, s, p, caps, d) == Go(env, s', p', caps, d)
    }

    /** Balanced strings, frontiers and earlier captures. */
    method StepEsc(s: nat, p: nat) returns (o: Outcome, again: bool, s': nat, p': nat)
      requires Ready(s, p)
      requires FormAt(env.pat, p).Balanced? || FormAt(env.pat, p).Edge? || FormAt(env.pat, p).BackReference?
      ensures again ==> GoesOn(s, p, s', p', Caps(), depth)
      ensures !again ==> Gives(o, Go(env, s, p, Caps(), depth), Caps(), depth) && s' == s && p' == p
    {
      if Byte(env.pat, p + 1) == 98 {
        o, again, s', p' := StepBalance(s, p);
      } else if Byte(env.pat, p + 1) == 102 {
        s' := s;
        o, again, p' := StepFrontier(s, p);
      } else {
        o, again, s', p' := StepBack(s, p);
      }
    }

    method StepBalance(s: nat, p: nat) returns (o: Outcome, again: bool, s': nat, p': nat)
      requires Ready(s, p) && FormAt(env.pat, p).Balanced?
      ensures again ==> GoesOn(s, p, s', p', Caps(), depth)
      ensures !again ==> Gives(o, Go(env, s, p, Caps(), depth), Caps(), depth) && s' == s && p' == p
    {
      o, again, s', p' := NotFound, false, s, p;
      FormFits(env.pat, p);
      assert Go(env, s, p, Caps(), depth) == GoBalanced(env, s, p, Caps(), depth);
      var open, close := Byte(env.pat, p + 2), Byte(env.pat, p + 3);
      if open == 0 || close == 0 {
        o := Failed(MissingArguments);
      } else if Byte(env.src, s) == open {
        var k := MatchBalance(s, open, close);
        if k >= 0 {
          again, s', p' := true, k, p + 4;
        }
      }
    }

    method StepFrontier(s: nat, p: nat) returns (o: Outcome, again: bool, p': nat)
      requires Ready(s, p) && FormAt(env.pat, p).Edge?
      ensures again ==> GoesOn(s, p, s, p', Caps(), depth)
      ensures !again ==> Gives(o, Go(env, s, p, Caps(), depth), Caps(), depth) && p' == p
    {
      o, again, p' := NotFound, false, p;
      FormFits(env.pat, p);
      assert Go(env, s, p, Caps(), depth) == GoEdge(env, s, p, Caps(), depth);
      if Byte(env.pat, p + 2) != LEFT {
        o := Failed(MissingFrontier);
      } else {
        var r := ClassEnd(env.pat, p + 2);
        match r {
          case Wrong(e) => o := Failed(e);
          case At(ep) =>
            var before := MatchBracketClass(if s == 0 then 0 else Byte(env.src, s - 1), env.pat, p + 2, ep - 1);
            if !before {
              again := MatchBracketClass(Byte(env.src, s), env.pat, p + 2, ep - 1);
              if again {
                p' := ep;
              }
            }
        }
      }
    }

    method StepBack(s: nat, p: nat) returns (o: Outcome, again: bool, s': nat, p': nat)
      requires Ready(s, p) && FormAt(env.pat, p).BackReference?
      ensures again ==> GoesOn(s, p, s', p', Caps(), depth)
      ensures !again ==> Gives(o, Go(env, s, p, Caps(), depth), Caps(), depth) && s' == s && p' == p
    {
      o, again, s', p' := NotFound, false, s, p;
      FormFits(env.pat, p);
      var bad, k := MatchCapture(s, Byte(env.pat, p + 1) - 49);
      if bad {
        o := Failed(BadIndex);
      } else if k >= 0 {
        again, s', p' := true, k, p + 2;
      }
    }

    /** A pattern item with its suffix. */
    method StepItem(s: nat, p: nat) returns (o: Outcome, again: bool, s': nat, p': nat)
      requires Ready(s, p) && p < |env.pat| && FormAt(env.pat, p).Item?
      modifies this`level, this`depth, capture
      ensures again ==>
        Valid() && GoesOn(s, p, s', p', old(Caps()), old(depth)) && Caps() == old(Caps()) && depth == old(depth)
      ensures !again ==> Gives(o, Go(env, s, p, old(Caps()), old(depth)), old(Caps()), old(depth)) && s' == s && p' == p
      decreases |env.pat| - p, 0, 2
    {
      o, again, s', p' := NotFound, false, s, p;
      assert Go(env, s, p, Caps(), depth) == GoItem(env, s, p, Caps(), depth);
      var r := ClassEnd(env.pat, p);
      if r.Wrong? {
        o := Failed(r.e);
        return;
      }
      var ep := r.p;
      var m := false;
      if s < |env.src| {
        m := SingleMatch(env.src[s], env.pat, p, ep);
      }
      var suffix := Byte(env.pat, ep);
      if suffix == OPTION {
        if m {
          o := Match(s + 1, ep + 1);
          if o != NotFound {
            return;
          }
        }
        again, p' := true, ep + 1;
      } else if suffix == STAR {
        o := MaxExpand(s, p, ep);
      } else if suffix == PLUS {
        if m {
          o := MaxExpand(s + 1, p, ep);
        }
      } else if suffix == DASH {
        o := MinExpand(s, p, ep);
      } else if m {
        again, s', p' := true, s + 1, ep;
      }
    }

    /** match */
    method Match(s0: nat, p0: nat) returns (o: Outcome)
      requires Ready(s0, p0)
      modifies this`level, this`depth, capture
      ensures Gives(o, LuaPattern.Match(env, s0, p0, old(Caps()), old(depth)), old(Caps()), old(depth))
      decreases |env.pat| - p0, 1, 0
    {
      ghost var caps := Caps();
      depth := depth + 1;
      if depth > MAX_LEVEL {
        return Failed(TooDeep);
      }
      var s: nat, p: nat, again := s0, p0, true;
      o := NotFound;
      while again
        invariant s <= |env.src| && p0 <= p <= |env.pat| && CapsOk(caps, s) && Valid()
        invariant again ==> Caps() == caps && depth == old(depth) + 1
        invariant again ==> Go(env, s0, p0, caps, old(depth) + 1) == Go(env, s, p, caps, old(depth) + 1)
        invariant !again ==> Gives(o, Go(env, s0, p0, caps, old(depth) + 1), caps, old(depth) + 1)
        decreases |env.pat| - p, again
      {
        o, again, s, p := Step(s, p);
      }
      if !o.Failed? {
        depth := depth - 1;
      }
    }
  }
}
