/** Pass 3: the bytes that each item becomes, and what the branches among them reach. */
module DynAsmEmit {
  import opened Arith
  import opened DynAsmItems
  import opened DynAsmLink
  import opened DynAsmLabels
  import opened DynAsmFlat

  /** What pass 2 has made of the items; the address the code is meant for; and the globals as given from outside. */
  datatype Unit = Unit(g: seq<Item>, buf: map<int, int>, d: seq<int>, base: int, ext: seq<int>)

  function Offset(u: Unit, k: nat): int
    requires k <= |u.g| && k < |u.d|
  {
    Final(u.g, u.d, k)
  }

  ghost predicate UnitOk(u: Unit)
  {
    LinkedTo(u.g, u.buf, u.d, |u.g|) && ArgsOk(u.g) &&
    forall k {:trigger Referable(u, k)} :: 0 <= k < |u.g| ==> Referable(u, k) && Led(u.g, k)
  }

  /** The words that pass 3 looks up for a reference are there. */
  predicate Referable(u: Unit, k: nat)
  {
    k < |u.g| &&
    (IsRef(u.g[k]) ==>
      u.g[k].pos in u.buf &&
      if u.buf[u.g[k].pos] < 0 then -u.buf[u.g[k].pos] < |u.ext| && IsLG(u.g[k])
        else u.buf[u.g[k].pos] in u.buf && u.buf[u.buf[u.g[k].pos]] >= 0) &&
    (IsRel(u.g[k]) ==> u.g[k].pos + 1 in u.buf && (u.buf[u.g[k].pos] < 0 ==> u.buf[u.g[k].pos + 1] == 0))
  }

  predicate IsLG(i: Item)
  {
    i.what.Do? && (i.what.act.RelLG? || i.what.act.ImmLG?)
  }

  predicate IsLiteral(i: Item)
  {
    i.what.Do? && Literal(i.what.act)
  }

  predicate IsNarrow(i: Item)
  {
    i.what.Do? && (i.what.act.ImmDB? || i.what.act.ImmWB?) && FitsByte(i.arg)
  }

  /** The bytes that an item patches are those of literals right before it. */
  predicate Led(g: seq<Item>, k: nat)
  {
    k < |g| &&
    (IsRel(g[k]) && Shrinkable(g[k].op) > 0 ==>
      k >= 1 && IsLiteral(g[k - 1]) && LastByte(g[k - 1].what.act) == g[k].op) &&
    (IsRel(g[k]) && Shrinkable(g[k].op) == 4 ==> k >= 2 && IsLiteral(g[k - 2])) &&
    (IsNarrow(g[k]) ==> k >= 2 && IsLiteral(g[k - 1]) && IsLiteral(g[k - 2]))
  }

  // ---- Bytes ---------------------------------------------------------------------------

  function LE1(n: int): seq<byte>
  {
    [n % 256]
  }

  function LE2(n: int): seq<byte>
  {
    [n % 256, (n / 256) % 256]
  }

  function LE4(n: int): seq<byte>
  {
    LE2(n) + LE2(n / 65536)
  }

  function Fill(b: byte, n: nat): seq<byte>
  {
    seq(n, _ => b)
  }

  /** The address that a reference stands for: of a global from outside, or of a label here. */
  function Address(u: Unit, k: nat): int
    requires Referable(u, k) && IsRef(u.g[k])
  {
    var w := u.buf[u.g[k].pos];
    if w < 0 then u.ext[-w] else u.base + u.buf[w]
  }

  predicate Shrunk(u: Unit, k: nat)
  {
    k < |u.g| && IsRel(u.g[k]) && u.g[k].pos + 1 in u.buf && u.buf[u.g[k].pos + 1] != 0
  }

  /** How far a reference is from the end of its item. */
  function Displacement(u: Unit, k: nat): int
    requires Referable(u, k) && IsRef(u.g[k]) && k + 1 < |u.d|
  {
    Address(u, k) - (u.base + Offset(u, k + 1))
  }

  /** The bytes of an item that patches nothing. */
  function PlainBytes(u: Unit, k: nat): seq<byte>
    requires Referable(u, k) && k + 1 < |u.d| && 0 <= Size(u.g, u.d, k) &&
      (u.g[k].what.Do? && u.g[k].what.act.Space? ==> u.g[k].arg >= 0)
  {
    var i := u.g[k];
    match i.what
    case Begin(_) => []
    case Finish => []
    case Do(a) =>
      match a
      case Byte(b) => [b]
      case Esc(b) => [b]
      case ImmS => LE1(i.arg)
      case ImmB => LE1(i.arg)
      case ImmW => LE2(i.arg)
      case ImmD => LE4(i.arg)
      case ImmWB => LE2(i.arg)
      case ImmDB => LE4(i.arg)
      case Space(fill) => Fill(fill, i.arg)
      case RelA => LE4(i.arg - (u.base + Offset(u, k + 1)))
      case RelLG(_) => LE4(Displacement(u, k))
      case RelPC => LE4(Displacement(u, k))
      case ImmLG(_) => LE4(Address(u, k))
      case ImmPC => LE4(Address(u, k))
      case Align(_) => Fill(0x90, Size(u.g, u.d, k))
      case _ => []
  }

  predicate EndsWith(p: seq<byte>, b: seq<byte>)
  {
    |b| <= |p| && p[|p| - |b|..] == b
  }

  /** A later item changes the byte of literal k. */
  predicate Patched(u: Unit, k: nat)
  {
    Shrunk(u, k + 1) ||
      (k + 2 < |u.g| && ((Shrunk(u, k + 2) && Shrinkable(u.g[k + 2].op) == 4) || IsNarrow(u.g[k + 2])))
  }

  /** What p, all code up to the end of item k, must look like because of item k. */
  predicate Piece(u: Unit, k: nat, p: seq<byte>)
    requires Referable(u, k) && Led(u.g, k) && k + 1 < |u.d| && 0 <= Size(u.g, u.d, k) && ArgOk(u.g[k])
  {
    if IsLiteral(u.g[k]) then Patched(u, k) || EndsWith(p, PlainBytes(u, k))
    else if Shrunk(u, k) then
      EndsWith(p, [ShortOp(u.g[k].op), Displacement(u, k) % 256])
    else if IsNarrow(u.g[k]) then
      |p| >= 3 && p[|p| - 1] == u.g[k].arg % 256 && p[|p| - 3] == NarrowOp(LastByte(u.g[k - 2].what.act))
    else EndsWith(p, PlainBytes(u, k))
  }

  /** The opcode of the short form: jmp rel8, or jcc rel8 with the same condition. */
  function ShortOp(op: byte): byte
  {
    if op == 0xe9 || op < 0x10 then 0xeb else op - 0x10
  }

  /** The opcode of an operation with a sign-extended byte instead of a full immediate. */
  function NarrowOp(op: byte): byte
  {
    var n: int := op;
    (n + 2) % 256
  }

  ghost predicate PieceAt(u: Unit, code: seq<byte>, j: nat)
  {
    j < |u.g| && j + 1 < |u.d| && Referable(u, j) && Led(u.g, j) && ArgOk(u.g[j]) && 0 <= Size(u.g, u.d, j) &&
    0 <= Offset(u, j) <= Offset(u, j + 1) <= |code| && Piece(u, j, code[..Offset(u, j + 1)])
  }

  /** The items before k are encoded, and literals right before it are as in the action list. */
  ghost predicate EncodedTo(u: Unit, code: seq<byte>, k: nat)
  {
    k <= |u.g| && k < |u.d| && |code| == Offset(u, k) &&
      (forall j {:trigger PieceAt(u, code, j)} :: 0 <= j < k ==> PieceAt(u, code, j)) && Fresh(u, code, k)
  }

  predicate Fresh(u: Unit, code: seq<byte>, k: nat)
    requires k <= |u.g|
  {
    (k >= 1 && IsLiteral(u.g[k - 1]) ==> |code| >= 1 && code[|code| - 1] == LastByte(u.g[k - 1].what.act)) &&
    (k >= 2 && IsLiteral(u.g[k - 1]) && IsLiteral(u.g[k - 2]) ==>
      |code| >= 2 && code[|code| - 2] == LastByte(u.g[k - 2].what.act))
  }

  // ---- Sizes -----------------------------------------------------------------------------

  /** The facts about item k that every step needs. */
  lemma ItemFacts(u: Unit, k: nat)
    requires UnitOk(u) && k < |u.g|
    ensures k + 1 < |u.d| && Referable(u, k) && Led(u.g, k) && ArgOk(u.g[k])
    ensures Offset(u, k + 1) == Offset(u, k) + Size(u.g, u.d, k) && 0 <= Size(u.g, u.d, k) && 0 <= Offset(u, k)
    ensures StepOk(u.g, u.buf, u.d, k)
  {
    SizeBounds(u.g, u.buf, u.d, |u.g|, k);
    Corrections(u.g, u.buf, u.d, |u.g|, 0, k);
    assert StepOk(u.g, u.buf, u.d, k);
    assert ArgOk(u.g[k]);
    ZeroOffset(u);
  }

  lemma ZeroOffset(u: Unit)
    requires |u.d| > 0
    ensures Offset(u, 0) == u.d[0]
  {
  }

  lemma OffsetsGrow(u: Unit, i: nat, j: nat)
    requires UnitOk(u) && i <= j <= |u.g|
    ensures j < |u.d| && 0 <= Offset(u, i) <= Offset(u, j)
  {
    Corrections(u.g, u.buf, u.d, |u.g|, 0, i);
    Corrections(u.g, u.buf, u.d, |u.g|, i, j);
    ZeroOffset(u);
  }

  /** Plain bytes are as many as pass 2 has reckoned. */
  lemma PlainSize(u: Unit, k: nat)
    requires UnitOk(u) && k < |u.g| && !Shrunk(u, k) && !IsNarrow(u.g[k])
    ensures k + 1 < |u.d| && Referable(u, k) && 0 <= Size(u.g, u.d, k) && ArgOk(u.g[k])
    ensures |PlainBytes(u, k)| == Size(u.g, u.d, k) == Offset(u, k + 1) - Offset(u, k)
  {
    ItemFacts(u, k);
    hide UnitOk, Est, Offset, Final, Led, Near, Displacement, Address;
    assert u.g[k].what.Do? && u.g[k].what.act.Align? ==> |Fill(0x90, Size(u.g, u.d, k))| == Size(u.g, u.d, k);
  }

  // ---- Frames -------------------------------------------------------------------------------

  /** Code that is the same up to the end of an item is right for it still. */
  lemma PieceSame(u: Unit, code: seq<byte>, code': seq<byte>, j: nat)
    requires PieceAt(u, code, j) && Offset(u, j + 1) <= |code'| && code'[..Offset(u, j + 1)] == code[..Offset(u, j + 1)]
    ensures PieceAt(u, code', j)
  {
    hide Piece, Offset, Led, Referable, ArgOk, Size;
  }

  lemma PrefixLess(code: seq<byte>, code': seq<byte>, m: int, n: int)
    requires 0 <= n <= m <= |code| && m <= |code'| && code'[..m] == code[..m]
    ensures code'[..n] == code[..n]
  {
    assert code'[..m][..n] == code[..m][..n];
  }

  /** All items that end by offset m, if the code up to there is the same. */
  lemma PiecesSame(u: Unit, code: seq<byte>, code': seq<byte>, k: nat, n: nat)
    requires UnitOk(u) && EncodedTo(u, code, k) && n <= k && n < |u.d| && 0 <= Offset(u, n) <= |code| &&
      Offset(u, n) <= |code'|
    requires code'[..Offset(u, n)] == code[..Offset(u, n)]
    ensures forall j {:trigger PieceAt(u, code', j)} :: 0 <= j < n ==> PieceAt(u, code', j)
  {
    hide *;
    EncodedParts(u, code, k);
    forall j: nat | j < n ensures PieceAt(u, code', j) {
      assert PieceAt(u, code, j);
      OffsetsGrow(u, j + 1, n);
      PrefixLess(code, code', Offset(u, n), Offset(u, j + 1));
      PieceSame(u, code, code', j);
    }
  }

  lemma EncodedParts(u: Unit, code: seq<byte>, k: nat)
    requires EncodedTo(u, code, k)
    ensures k <= |u.g| && k < |u.d| && |code| == Offset(u, k) && Fresh(u, code, k)
    ensures forall j {:trigger PieceAt(u, code, j)} :: 0 <= j < k ==> PieceAt(u, code, j)
  {
  }

  lemma EncodedMore(u: Unit, code: seq<byte>, k: nat)
    requires k < |u.g| && k + 1 < |u.d| && |code| == Offset(u, k + 1)
    requires forall j {:trigger PieceAt(u, code, j)} :: 0 <= j < k ==> PieceAt(u, code, j)
    requires PieceAt(u, code, k) && Fresh(u, code, k + 1)
    ensures EncodedTo(u, code, k + 1)
  {
    hide PieceAt, Fresh, Offset;
  }

  /** An item that patches nothing. */
  lemma EmitPlain(u: Unit, code: seq<byte>, k: nat)
    requires UnitOk(u) && EncodedTo(u, code, k) && k < |u.g| && !Shrunk(u, k) && !IsNarrow(u.g[k])
    ensures Referable(u, k) && k + 1 < |u.d| && 0 <= Size(u.g, u.d, k) && ArgOk(u.g[k])
    ensures EncodedTo(u, code + PlainBytes(u, k), k + 1)
  {
    hide *;
    PlainSize(u, k);
    ItemFacts(u, k);
    EncodedParts(u, code, k);
    var b := PlainBytes(u, k);
    var code' := code + b;
    SamePrefix(code, b);
    PiecesSame(u, code, code', k, k);
    PlainFresh(u, code, k);
    PlainPiece(u, code, k);
    EncodedMore(u, code', k);
  }

  lemma SamePrefix(code: seq<byte>, b: seq<byte>)
    ensures (code + b)[..|code|] == code[..|code|] && (code + b)[..|code + b|] == code + b
  {
  }

  lemma PlainFresh(u: Unit, code: seq<byte>, k: nat)
    requires UnitOk(u) && k < |u.g| && Fresh(u, code, k) && Referable(u, k) && k + 1 < |u.d| &&
      0 <= Size(u.g, u.d, k) && ArgOk(u.g[k])
    ensures Fresh(u, code + PlainBytes(u, k), k + 1)
  {
    hide UnitOk, Referable, Size, Address, Displacement, Offset;
    if IsLiteral(u.g[k]) { assert PlainBytes(u, k) == [LastByte(u.g[k].what.act)]; }
  }

  lemma PlainPiece(u: Unit, code: seq<byte>, k: nat)
    requires UnitOk(u) && k < |u.g| && !Shrunk(u, k) && !IsNarrow(u.g[k])
    requires k + 1 < |u.d| && Referable(u, k) && Led(u.g, k) && 0 <= Size(u.g, u.d, k) && ArgOk(u.g[k])
    requires 0 <= Offset(u, k) <= Offset(u, k + 1) && |code + PlainBytes(u, k)| == Offset(u, k + 1)
    ensures PieceAt(u, code + PlainBytes(u, k), k)
  {
    var b := PlainBytes(u, k);
    var p := (code + b)[..Offset(u, k + 1)];
    assert p == code + b;
    assert EndsWith(p, b);
    hide PlainBytes, UnitOk, Offset, Referable, Led, ArgOk, Size, Shrunk, EndsWith;
  }

  /** A branch in its short form: the opcode is patched, and a condition code's prefix byte gives way. */
  lemma EmitShort(u: Unit, code: seq<byte>, k: nat)
    requires UnitOk(u) && EncodedTo(u, code, k) && k < |u.g| && Shrunk(u, k)
    ensures Referable(u, k) && k + 1 < |u.d| && var n := Shrinkable(u.g[k].op);
      (n == 3 || n == 4) && u.buf[u.g[k].pos + 1] == n && |code| >= n - 2 && code[|code| - 1] == u.g[k].op &&
      (n == 3 ==> ShortOp(u.g[k].op) == 0xeb) && (n == 4 ==> ShortOp(u.g[k].op) == u.g[k].op - 0x10) &&
      Offset(u, k + 1) == |code| + 4 - n &&
      EncodedTo(u, code[..|code| - (n - 2)] + [ShortOp(u.g[k].op), Displacement(u, k) % 256], k + 1)
  {
    hide *;
    ItemFacts(u, k);
    EncodedParts(u, code, k);
    ShortFacts(u, k, code);
    var n := Shrinkable(u.g[k].op);
    var tail := [ShortOp(u.g[k].op), Displacement(u, k) % 256];
    var code' := code[..|code| - (n - 2)] + tail;
    var m: nat := k - (n - 2);
    LiteralOffsets(u, k, n - 2);
    SamePrefix(code[..|code| - (n - 2)], tail);
    assert code'[..Offset(u, m)] == code[..Offset(u, m)];
    PiecesSame(u, code, code', k, m);
    forall j | 0 <= j < k ensures PieceAt(u, code', j) {
      if j >= m {
        ItemFacts(u, j);
        OffsetsGrow(u, j + 1, k + 1);
        PatchedByShort(u, j, k, code');
      }
    }
    ShortPiece(u, code', k, code[..|code| - (n - 2)]);
    NotFresh(u, code', k + 1);
    EncodedMore(u, code', k);
  }

  lemma NotFresh(u: Unit, code: seq<byte>, k: nat)
    requires 1 <= k <= |u.g| && !IsLiteral(u.g[k - 1])
    ensures Fresh(u, code, k)
  {
  }

  lemma ShortFacts(u: Unit, k: nat, code: seq<byte>)
    requires k < |u.g| && Shrunk(u, k) && StepOk(u.g, u.buf, u.d, k) && Led(u.g, k) && Referable(u, k) &&
      Fresh(u, code, k) && |code| == Offset(u, k)
    ensures IsRef(u.g[k]) && !IsLiteral(u.g[k]) && !IsNarrow(u.g[k])
    ensures var n := Shrinkable(u.g[k].op);
      (n == 3 || n == 4) && u.buf[u.g[k].pos + 1] == n && |code| >= n - 2 && code[|code| - 1] == u.g[k].op &&
      (n == 3 ==> ShortOp(u.g[k].op) == 0xeb) && (n == 4 ==> ShortOp(u.g[k].op) == u.g[k].op - 0x10) &&
      Offset(u, k + 1) == |code| + 4 - n && k >= n - 2 && IsLiteral(u.g[k - 1]) && (n == 4 ==> IsLiteral(u.g[k - 2]))
  {
    hide Near, Est, Referable;
    assert Size(u.g, u.d, k) == 4 - Shrinkable(u.g[k].op);
    assert Est(u.g, k + 1) == Est(u.g, k) + MaxSize(u.g[k]) by { EstNext(u.g, k); }
  }

  lemma EstNext(g: seq<Item>, k: nat)
    requires k < |g|
    ensures Est(g, k + 1) == Est(g, k) + MaxSize(g[k])
  {
  }

  /** One or two literals before item k take one byte each. */
  lemma {:induction false} LiteralOffsets(u: Unit, k: nat, n: nat)
    requires UnitOk(u) && k < |u.g| && n <= 2 && n <= k && forall j :: k - n <= j < k ==> IsLiteral(u.g[j])
    ensures k < |u.d| && Offset(u, k - n) == Offset(u, k) - n
  {
    if n > 0 {
      LiteralOffsets(u, k - 1, n - 1);
      LiteralSize(u, k - 1);
    }
  }

  lemma LiteralSize(u: Unit, k: nat)
    requires UnitOk(u) && k < |u.g| && IsLiteral(u.g[k])
    ensures k + 1 < |u.d| && Offset(u, k + 1) == Offset(u, k) + 1
  {
    ItemFacts(u, k);
    hide UnitOk, Est, Offset, Near, Led, Referable;
  }

  lemma PatchedByShort(u: Unit, j: nat, k: nat, code: seq<byte>)
    requires j < k < |u.g| && Shrunk(u, k) && k - j <= Shrinkable(u.g[k].op) - 2 <= 2 && IsLiteral(u.g[j])
    requires j + 1 < |u.d| && Referable(u, j) && Led(u.g, j) && ArgOk(u.g[j]) && 0 <= Size(u.g, u.d, j)
    requires 0 <= Offset(u, j) <= Offset(u, j + 1) <= |code|
    ensures PieceAt(u, code, j)
  {
    assert k == j + 1 || (k == j + 2 && Shrinkable(u.g[k].op) == 4);
    assert Patched(u, j);
    hide Offset, Referable, Led, ArgOk, Size, Patched, PlainBytes, Shrunk;
  }

  lemma ShortPiece(u: Unit, code: seq<byte>, k: nat, front: seq<byte>)
    requires k < |u.g| && Shrunk(u, k) && !IsLiteral(u.g[k]) && IsRef(u.g[k])
    requires k + 1 < |u.d| && Referable(u, k) && Led(u.g, k) && 0 <= Size(u.g, u.d, k) && ArgOk(u.g[k])
    requires 0 <= Offset(u, k) <= Offset(u, k + 1) == |code| &&
      code == front + [ShortOp(u.g[k].op), Displacement(u, k) % 256]
    ensures PieceAt(u, code, k)
  {
    assert code[..Offset(u, k + 1)] == code;
    assert EndsWith(code, [ShortOp(u.g[k].op), Displacement(u, k) % 256]);
    hide Offset, Referable, Led, ArgOk, Size, Shrunk, EndsWith, PlainBytes, Displacement;
  }

  /** An immediate in its narrow form: two bytes back, the opcode's size bit pair is changed. */
  lemma EmitNarrow(u: Unit, code: seq<byte>, k: nat)
    requires UnitOk(u) && EncodedTo(u, code, k) && k < |u.g| && IsNarrow(u.g[k])
    ensures |code| >= 2
    ensures EncodedTo(u, code[|code| - 2 := NarrowOp(code[|code| - 2])] + [u.g[k].arg % 256], k + 1)
  {
    hide *;
    ItemFacts(u, k);
    EncodedParts(u, code, k);
    NarrowFacts(u, k, code);
    LiteralOffsets(u, k, 2);
    LiteralOffsets(u, k, 1);
    var mid := code[|code| - 2 := NarrowOp(code[|code| - 2])];
    var code' := mid + [u.g[k].arg % 256];
    assert code'[..Offset(u, k - 2)] == code[..Offset(u, k - 2)];
    PiecesSame(u, code, code', k, k - 2);
    forall j | 0 <= j < k ensures PieceAt(u, code', j) {
      if j >= k - 2 {
        assert PieceAt(u, code, j);
        ItemFacts(u, j);
        OffsetsGrow(u, j + 1, k + 1);
        assert j == k - 1 ==> code'[Offset(u, j + 1) - 1] == code[Offset(u, j + 1) - 1];
        PatchedByNarrow(u, j, k, code, code');
      }
    }
    NarrowPiece(u, code', k);
    NotFresh(u, code', k + 1);
    EncodedMore(u, code', k);
  }

  lemma NarrowFacts(u: Unit, k: nat, code: seq<byte>)
    requires k < |u.g| && IsNarrow(u.g[k]) && StepOk(u.g, u.buf, u.d, k) && Led(u.g, k) && Fresh(u, code, k) &&
      |code| == Offset(u, k)
    ensures k >= 2 && IsLiteral(u.g[k - 1]) && IsLiteral(u.g[k - 2]) && |code| >= 2 &&
      code[|code| - 2] == LastByte(u.g[k - 2].what.act)
    ensures !IsLiteral(u.g[k]) && !Shrunk(u, k) && Offset(u, k + 1) == |code| + 1
  {
    hide Near, Est;
    assert Est(u.g, k + 1) == Est(u.g, k) + MaxSize(u.g[k]) by { EstNext(u.g, k); }
  }

  lemma PatchedByNarrow(u: Unit, j: nat, k: nat, code: seq<byte>, code': seq<byte>)
    requires j < k <= j + 2 && k < |u.g| && IsNarrow(u.g[k]) && IsLiteral(u.g[j]) && PieceAt(u, code, j)
    requires Offset(u, j + 1) <= |code'| && Offset(u, j + 1) == Offset(u, j) + 1
    requires j == k - 1 ==> code'[Offset(u, j + 1) - 1] == code[Offset(u, j + 1) - 1]
    ensures PieceAt(u, code', j)
  {
    if k == j + 2 {
      assert Patched(u, j);
      hide Offset, Referable, Led, ArgOk, Size, Patched, PlainBytes, Shrunk;
    } else {
      assert |PlainBytes(u, j)| == 1;
      hide Offset, Referable, Led, ArgOk, Size, Patched, PlainBytes, Shrunk;
      var e := Offset(u, j + 1);
      if EndsWith(code[..e], PlainBytes(u, j)) { OneByteEnd(code, code', e, PlainBytes(u, j)); }
    }
  }

  lemma OneByteEnd(code: seq<byte>, code': seq<byte>, e: int, b: seq<byte>)
    requires 0 < e <= |code| && e <= |code'| && |b| == 1 && EndsWith(code[..e], b) && code'[e - 1] == code[e - 1]
    ensures EndsWith(code'[..e], b)
  {
    assert code[..e][e - 1..] == [code[e - 1]];
    assert code'[..e][e - 1..] == [code'[e - 1]];
  }

  lemma NarrowPiece(u: Unit, code: seq<byte>, k: nat)
    requires k < |u.g| && IsNarrow(u.g[k]) && !Shrunk(u, k) && !IsLiteral(u.g[k])
    requires k + 1 < |u.d| && Referable(u, k) && Led(u.g, k) && 0 <= Size(u.g, u.d, k) && ArgOk(u.g[k])
    requires 0 <= Offset(u, k) <= Offset(u, k + 1) == |code| && |code| >= 3 && code[|code| - 1] == u.g[k].arg % 256
    requires code[|code| - 3] == NarrowOp(LastByte(u.g[k - 2].what.act))
    ensures PieceAt(u, code, k)
  {
    assert code[..Offset(u, k + 1)] == code;
    hide Offset, Referable, ArgOk, Size, Shrunk, PlainBytes;
  }

  // ---- Globals -----------------------------------------------------------------------------

  /** The array of globals after the first n items: each global label's entry is its address. */
  function GlobalsAfter(u: Unit, n: nat): (r: seq<int>)
    requires n <= |u.g| && n <= |u.d|
    ensures |r| == |u.ext|
  {
    if n == 0 then u.ext
    else
      var r := GlobalsAfter(u, n - 1);
      if IsGlobalLabel(u.g[n - 1]) && u.g[n - 1].what.act.n < |r|
        then r[u.g[n - 1].what.act.n := u.base + Offset(u, n - 1)] else r
  }

  predicate IsGlobalLabel(i: Item)
  {
    i.what.Do? && i.what.act.LabelLG? && i.what.act.n >= 10
  }

  /** A global that is not a label here stays as it was given. */
  lemma {:induction false} GlobalStays(u: Unit, n: nat, x: nat)
    requires n <= |u.g| && n <= |u.d| && x < |u.ext|
    requires forall k :: 0 <= k < n && IsGlobalLabel(u.g[k]) ==> u.g[k].what.act.n != x
    ensures GlobalsAfter(u, n)[x] == u.ext[x]
  {
    if n > 0 { GlobalStays(u, n - 1, x); }
  }

  /** The entry of a global label is its address, if it is not put again. */
  lemma {:induction false} GlobalSet(u: Unit, n: nat, k: nat)
    requires k < n <= |u.g| && n <= |u.d| && IsGlobalLabel(u.g[k]) && u.g[k].what.act.n < |u.ext|
    requires forall j :: k < j < n && IsGlobalLabel(u.g[j]) ==> u.g[j].what.act.n != u.g[k].what.act.n
    ensures GlobalsAfter(u, n)[u.g[k].what.act.n] == u.base + Offset(u, k)
  {
    if n - 1 > k { GlobalSet(u, n - 1, k); }
  }

  /** Item k is a global label, and none after it is that label. */
  predicate LastGlobal(u: Unit, k: nat)
  {
    k < |u.g| && IsGlobalLabel(u.g[k]) &&
    forall j :: k < j < |u.g| && IsGlobalLabel(u.g[j]) ==> u.g[j].what.act.n != u.g[k].what.act.n
  }

  /** The caller finds the address of each global label in its table. */
  ghost predicate GlobalAddresses(u: Unit, globals: seq<int>)
    requires |u.g| <= |u.d|
  {
    forall k: nat :: LastGlobal(u, k) && u.g[k].what.act.n < |globals| ==>
      globals[u.g[k].what.act.n] == u.base + Offset(u, k)
  }

  lemma AllGlobals(u: Unit)
    requires |u.g| <= |u.d|
    ensures GlobalAddresses(u, GlobalsAfter(u, |u.g|))
  {
    forall k: nat | LastGlobal(u, k) && u.g[k].what.act.n < |u.ext|
      ensures GlobalsAfter(u, |u.g|)[u.g[k].what.act.n] == u.base + Offset(u, k)
    {
      GlobalSet(u, |u.g|, k);
    }
  }

  // ---- What the processor makes of it --------------------------------------------------------

  function Signed8(b: byte): int
  {
    if b < 128 then b else b - 256
  }

  function Read4(code: seq<byte>, at: int): int
    requires 0 <= at <= |code| - 4
  {
    var b0: int, b1: int, b2: int, b3: int := code[at], code[at + 1], code[at + 2], code[at + 3];
    b0 + 0x100 * b1 + 0x1_0000 * b2 + 0x100_0000 * b3
  }

  function Signed32(n: int): int
  {
    if n < 0x8000_0000 then n else n - 0x1_0000_0000
  }

  lemma ReadBack(n: int)
    ensures |LE4(n)| == 4 && Read4(LE4(n), 0) == n % 0x1_0000_0000
  {
    var b0, b1, b2, b3 := n % 256, (n / 256) % 256, (n / 65536) % 256, (n / 65536 / 256) % 256;
    assert n / 65536 / 256 == n / 0x100_0000;
    assert n / 256 / 256 == n / 65536;
    assert n == b0 + 256 * (n / 256) && n / 256 == b1 + 256 * (n / 65536) && n / 65536 == b2 + 256 * (n / 0x100_0000);
    var q := n / 0x100_0000 / 256;
    assert n / 0x100_0000 == b3 + 256 * q;
    DivUnique(n, 0x1_0000_0000, q);
  }

  lemma ReadEnd(code: seq<byte>, e: int, n: int)
    requires 0 <= e <= |code| && EndsWith(code[..e], LE4(n))
    ensures e >= 4 && Read4(code, e - 4) == n % 0x1_0000_0000
  {
    ReadBack(n);
    var b := LE4(n);
    assert forall i :: 0 <= i < 4 ==> code[..e][e - 4..][i] == code[e - 4 + i] == b[i];
  }

  lemma Signed8Back(n: int)
    requires FitsByte(n)
    ensures Signed8(n % 256) == n
  {
  }

  /**
   A relative branch goes where its label is: from the end of the instruction, the displacement in the code leads to
   the label's final offset, in the short form as in the long one.
   */
  lemma BranchReaches(u: Unit, code: seq<byte>, k: nat, l: nat)
    requires UnitOk(u) && EncodedTo(u, code, |u.g|) && OneLabel(u.g) && k < |u.g| && IsRel(u.g[k]) &&
      u.g[k].pos in u.buf
    requires l < |u.g| && l < |u.d| && LabelAt(u.g, l, u.buf[u.g[k].pos]) && u.buf[u.g[k].pos] >= 0 && k + 1 < |u.d|
    ensures var e, t := Offset(u, k + 1), Offset(u, l);
      2 <= e <= |code| &&
      if Shrunk(u, k) then
        e + Signed8(code[e - 1]) == t && code[e - 2] == ShortOp(u.g[k].op)
      else
        e >= 4 && (e + Read4(code, e - 4)) % 0x1_0000_0000 == t % 0x1_0000_0000 &&
        (-0x8000_0000 <= t - e < 0x8000_0000 ==> e + Signed32(Read4(code, e - 4)) == t)
  {
    hide *;
    var e, t := Offset(u, k + 1), Offset(u, l);
    ItemFacts(u, k);
    LabelWord(u, k, l);
    OffsetsGrow(u, k + 1, |u.g|);
    EncodedParts(u, code, |u.g|);
    assert PieceAt(u, code, k);
    DisplacementIs(u, k);
    if Shrunk(u, k) {
      ShrunkFits(u, k, l);
      Signed8Back(t - e);
      ShortPieceIs(u, code, k);
    } else {
      ReferencePiece(u, code, k);
      ReadEnd(code, e, t - e);
      ModAdd(e, t - e);
    }
  }

  lemma LabelWord(u: Unit, k: nat, l: nat)
    requires UnitOk(u) && k < |u.g| && IsRel(u.g[k]) && u.g[k].pos in u.buf && Referable(u, k)
    requires l < |u.g| && l < |u.d| && LabelAt(u.g, l, u.buf[u.g[k].pos]) && u.buf[u.g[k].pos] >= 0
    ensures IsRef(u.g[k]) && Address(u, k) == u.base + Offset(u, l)
  {
    assert StepOk(u.g, u.buf, u.d, l);
  }

  lemma ShrunkFits(u: Unit, k: nat, l: nat)
    requires UnitOk(u) && OneLabel(u.g) && k < |u.g| && Shrunk(u, k) && u.g[k].pos in u.buf && l < |u.g| &&
      LabelAt(u.g, l, u.buf[u.g[k].pos])
    ensures k + 1 < |u.d| && l < |u.d| && FitsByte(Offset(u, l) - Offset(u, k + 1))
  {
    ShrunkReaches(u.g, u.buf, u.d, k, l);
  }

  lemma ShortPieceIs(u: Unit, code: seq<byte>, k: nat)
    requires PieceAt(u, code, k) && Shrunk(u, k) && IsRef(u.g[k])
    ensures var e := Offset(u, k + 1);
      2 <= e <= |code| && code[e - 2] == ShortOp(u.g[k].op) && code[e - 1] == Displacement(u, k) % 256
  {
    hide Offset, Displacement, ShortOp;
    var e := Offset(u, k + 1);
    assert code[..e][e - 2..] == [ShortOp(u.g[k].op), Displacement(u, k) % 256];
    assert code[..e][e - 2..][0] == code[e - 2] && code[..e][e - 2..][1] == code[e - 1];
  }

  lemma ModAdd(e: int, n: int)
    ensures (e + n % 0x1_0000_0000) % 0x1_0000_0000 == (e + n) % 0x1_0000_0000
    ensures -0x8000_0000 <= n < 0x8000_0000 ==> Signed32(n % 0x1_0000_0000) == n
  {
  }

  /** A branch to a global from outside, or an absolute reference. */
  lemma ReferenceReaches(u: Unit, code: seq<byte>, k: nat)
    requires UnitOk(u) && EncodedTo(u, code, |u.g|) && k < |u.g| && IsRef(u.g[k]) && !Shrunk(u, k) && Referable(u, k) &&
      k + 1 < |u.d|
    ensures var e := Offset(u, k + 1);
      4 <= e <= |code| &&
      (IsRel(u.g[k]) ==> (u.base + e + Read4(code, e - 4)) % 0x1_0000_0000 == Address(u, k) % 0x1_0000_0000) &&
      (!IsRel(u.g[k]) ==> Read4(code, e - 4) == Address(u, k) % 0x1_0000_0000)
  {
    hide *;
    var e := Offset(u, k + 1);
    ItemFacts(u, k);
    EncodedParts(u, code, |u.g|);
    assert PieceAt(u, code, k);
    ReferencePiece(u, code, k);
    if IsRel(u.g[k]) {
      DisplacementIs(u, k);
      ReadEnd(code, e, Displacement(u, k));
      ModAdd(u.base + e, Displacement(u, k));
    } else {
      ReadEnd(code, e, Address(u, k));
    }
  }

  lemma ReferencePiece(u: Unit, code: seq<byte>, k: nat)
    requires PieceAt(u, code, k) && IsRef(u.g[k]) && !Shrunk(u, k)
    ensures 0 <= Offset(u, k + 1) <= |code|
    ensures EndsWith(code[..Offset(u, k + 1)], LE4(if IsRel(u.g[k]) then Displacement(u, k) else Address(u, k)))
  {
    hide Offset, Address, Displacement, LE4, EndsWith;
  }

  lemma DisplacementIs(u: Unit, k: nat)
    requires Referable(u, k) && IsRef(u.g[k]) && k + 1 < |u.d|
    ensures Displacement(u, k) == Address(u, k) - (u.base + Offset(u, k + 1))
  {
  }
}
