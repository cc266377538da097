/** Single characters of Lua patterns: classes, sets, and where an item of a pattern ends. */
module LuaChars {
  import opened Options

  type byte = n: nat | n < 256

  const ESC: byte := 37
  const DOLLAR: byte := 36
  const OPEN: byte := 40
  const CLOSE: byte := 41
  const STAR: byte := 42
  const PLUS: byte := 43
  const DASH: byte := 45
  const DOT: byte := 46
  const OPTION: byte := 63
  const LEFT: byte := 91
  const RIGHT: byte := 93
  const CARET: byte := 94

  /** What can be wrong with a pattern, or with its use. */
  datatype Error = EndsInEsc | MissingBracket | MissingArguments | MissingFrontier | BadIndex | NothingToClose
      | TooManyCaptures |
                   TooDeep | Unfinished

  /** A position in the pattern, or an error. */
  datatype Place = At(p: nat) | Wrong(e: Error)

  /** The byte at a position of a C string; its end reads as 0. */
  function Byte(s: seq<byte>, i: nat): byte
  {
    if i < |s| then s[i] else 0
  }

  datatype Class = Alpha | Cntrl | Digit | Graph | Lower | Punct | Space | Upper | Alnum | XDigit

  predicate IsLetter(c: byte)
  {
    65 <= c <= 90 || 97 <= c <= 122
  }

  predicate IsDigit(c: byte)
  {
    48 <= c <= 57
  }

  predicate IsPunct(c: byte)
  {
    33 <= c <= 47 || 58 <= c <= 64 || 91 <= c <= 96 || 123 <= c <= 126
  }

  predicate IsA(c: byte, k: Class)
  {
    match k
    case Alpha => IsLetter(c)
    case Cntrl => c < 32 || c == 127
    case Digit => IsDigit(c)
    case Graph => IsLetter(c) || IsDigit(c) || IsPunct(c)
    case Lower => 97 <= c <= 122
    case Punct => IsPunct(c)
    case Space => 9 <= c <= 13 || c == 32
    case Upper => 65 <= c <= 90
    case Alnum => IsLetter(c) || IsDigit(c)
    case XDigit => IsDigit(c) || 65 <= c <= 70 || 97 <= c <= 102
  }

  /** The class that a letter stands for, small or capital. */
  function ClassOf(letter: byte): Option<Class>
  {
    if letter == 1 then Some(Alpha) else if letter == 3 then Some(Cntrl) else if letter == 4 then Some(Digit)
    else if letter == 7 then Some(Graph) else if letter == 12 then Some(Lower) else if letter == 16 then Some(Punct)
    else if letter == 19 then Some(Space) else if letter == 21 then Some(Upper) else if letter == 23 then Some(Alnum)
    else if letter == 24 then Some(XDigit) else None
  }

  /** match_class: an escaped character; capital letters stand for what is not of the class. */
  predicate MatchClass(c: byte, cl: byte)
  {
    if 64 <= cl < 128 && ClassOf(cl % 32).Some? then IsA(c, ClassOf(cl % 32).value) == (cl >= 96)
    else if cl == 122 then c == 0
    else if cl == 90 then c != 0
    else cl == c
  }

  /** Whether one of the entries of a set, from position q up to its closing bracket at ec, holds the character. */
  predicate InSet(c: byte, pat: seq<byte>, q: nat, ec: nat)
    decreases ec - q
  {
    if q >= ec then false
    else if Byte(pat, q) == ESC then MatchClass(c, Byte(pat, q + 1)) || InSet(c, pat, q + 2, ec)
    else if Byte(pat, q + 1) == DASH && q + 2 < ec then
      Byte(pat, q) <= c <= Byte(pat, q + 2) || InSet(c, pat, q + 3, ec)
    else Byte(pat, q) == c || InSet(c, pat, q + 1, ec)
  }

  /** The set at p, closed at ec, complemented or not. */
  predicate MatchSet(c: byte, pat: seq<byte>, p: nat, ec: nat)
  {
    if Byte(pat, p + 1) == CARET then !InSet(c, pat, p + 2, ec) else InSet(c, pat, p + 1, ec)
  }

  /** singlematch: the item from p to ep takes the character. */
  predicate Single(c: byte, pat: seq<byte>, p: nat, ep: nat)
    requires p < ep
  {
    if Byte(pat, p) == DOT then true
    else if Byte(pat, p) == ESC then MatchClass(c, Byte(pat, p + 1))
    else if Byte(pat, p) == LEFT then MatchSet(c, pat, p, ep - 1)
    else Byte(pat, p) == c
  }

  /** Where the set whose next entry is at q ends. */
  function SetEnd(pat: seq<byte>, q: nat): (r: Place)
    requires q <= |pat|
    ensures match r case At(p) => q < p <= |pat| case Wrong(e) => e == MissingBracket
    decreases |pat| - q
  {
    if Byte(pat, q) == 0 then Wrong(MissingBracket)
    else
      var n := if Byte(pat, q) == ESC && Byte(pat, q + 1) != 0 then q + 2 else q + 1;
      if Byte(pat, n) == RIGHT then At(n + 1) else SetEnd(pat, n)
  }

  /** Where the item at p ends. */
  function ItemEnd(pat: seq<byte>, p: nat): (r: Place)
    requires Byte(pat, p) != 0
    ensures match r case At(ep) => p < ep <= |pat| case Wrong(e) => e == EndsInEsc || e == MissingBracket
  {
    if Byte(pat, p) == ESC then (if Byte(pat, p + 1) == 0 then Wrong(EndsInEsc) else At(p + 2))
    else if Byte(pat, p) == LEFT then SetEnd(pat, if Byte(pat, p + 1) == CARET then p + 2 else p + 1)
    else At(p + 1)
  }

  /** classend */
  method ClassEnd(pat: seq<byte>, p: nat) returns (r: Place)
    requires Byte(pat, p) != 0
    ensures r == ItemEnd(pat, p)
  {
    var q := p + 1;
    if pat[p] == ESC {
      if Byte(pat, q) == 0 {
        return Wrong(EndsInEsc);
      }
      return At(q + 1);
    } else if pat[p] == LEFT {
      if Byte(pat, q) == CARET {
        q := q + 1;
      }
      var more := true;
      while more
        invariant q <= |pat| && (if more then SetEnd(pat, q) else At(q + 1)) == ItemEnd(pat, p)
        invariant !more ==> Byte(pat, q) == RIGHT
        decreases |pat| - q, more
      {
        if Byte(pat, q) == 0 {
          return Wrong(MissingBracket);
        }
        q := q + 1;
        if pat[q - 1] == ESC && Byte(pat, q) != 0 {
          q := q + 1;
        }
        more := Byte(pat, q) != RIGHT;
      }
      return At(q + 1);
    }
    return At(q);
  }

  /** matchbracketclass */
  method MatchBracketClass(c: byte, pat: seq<byte>, p0: nat, ec: nat) returns (r: bool)
    ensures r == MatchSet(c, pat, p0, ec)
  {
    var sig, p := true, p0;
    if Byte(pat, p + 1) == CARET {
      sig := false;
      p := p + 1;
    }
    p := p + 1;
    while p < ec
      invariant MatchSet(c, pat, p0, ec) == if sig then InSet(c, pat, p, ec) else !InSet(c, pat, p, ec)
      decreases ec - p
    {
      if Byte(pat, p) == ESC {
        p := p + 1;
        if MatchClass(c, Byte(pat, p)) {
          return sig;
        }
      } else if Byte(pat, p + 1) == DASH && p + 2 < ec {
        p := p + 2;
        if Byte(pat, p - 2) <= c <= Byte(pat, p) {
          return sig;
        }
      } else if Byte(pat, p) == c {
        return sig;
      }
      p := p + 1;
    }
    return !sig;
  }

  /** singlematch */
  method SingleMatch(c: byte, pat: seq<byte>, p: nat, ep: nat) returns (r: bool)
    requires p < ep
    ensures r == Single(c, pat, p, ep)
  {
    if Byte(pat, p) == DOT {
      return true;
    } else if Byte(pat, p) == ESC {
      return MatchClass(c, Byte(pat, p + 1));
    } else if Byte(pat, p) == LEFT {
      r := MatchBracketClass(c, pat, p, ep - 1);
    } else {
      return Byte(pat, p) == c;
    }
  }
}
