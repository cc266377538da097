/** DynASM for x86: action lists, and what a section's buffer records of them. */
module DynAsmItems {
  type byte = n: nat | n < 256

  /**
   The actions of an action list, decoded. Plain bytes are below 233, the first action code; others are escaped.
   */
  datatype Act =
    | Byte(b: byte) | Esc(b: byte)
    | ImmS | ImmB | ImmW | ImmD | ImmWB | ImmDB
    | Space(fill: byte) | RelA
    | RelLG(n: byte) | RelPC | ImmLG(n: byte) | ImmPC | LabelLG(n: byte) | LabelPC
    | Align(mask: byte) | Section(n: byte) | Stop

  const DASM_DISP: nat := 233

  /** The last byte of an action in the list: its own code, or its argument. */
  function LastByte(a: Act): byte
  {
    match a
    case Byte(b) => b
    case Esc(b) => b
    case ImmS => 234
    case ImmB => 235
    case ImmW => 236
    case ImmD => 237
    case ImmWB => 238
    case ImmDB => 239
    case Space(fill) => fill
    case RelA => 243
    case RelLG(n) => n
    case RelPC => 245
    case ImmLG(n) => n
    case ImmPC => 247
    case LabelLG(n) => n
    case LabelPC => 249
    case Align(mask) => mask
    case Section(n) => n
    case Stop => 255
  }

  predicate Ends(a: Act)
  {
    a.Section? || a.Stop?
  }

  predicate Literal(a: Act)
  {
    a.Byte? || a.Esc?
  }

  /** By how much a branch with this opcode byte can shrink: jmp from five bytes to two, jcc from six to two. */
  function Shrinkable(op: byte): nat
  {
    if op == 0xe9 then 3 else if 0x80 <= op <= 0x8f then 4 else 0
  }

  /** The byte that is taken for the opcode of the branch at p. */
  function OpAt(list: seq<Act>, p: nat): byte
    requires p <= |list|
  {
    if p == 0 then 0 else LastByte(list[p - 1])
  }

  /** What the preprocessor guarantees of an action list. */
  predicate ActOk(list: seq<Act>, p: nat)
    requires p < |list|
  {
    match list[p]
    case Byte(b) => b < DASM_DISP
    case Align(mask) => MaskOk(mask)
    case RelLG(n) => BranchOk(list, p)
    case RelPC => BranchOk(list, p)
    case ImmDB => p >= 2 && Literal(list[p - 1]) && Literal(list[p - 2])
    case ImmWB => p >= 2 && Literal(list[p - 1]) && Literal(list[p - 2])
    case _ => true
  }

  predicate MaskOk(mask: byte)
  {
    mask == 0 || mask == 1 || mask == 3 || mask == 7 || mask == 15 || mask == 31 || mask == 63 || mask == 127 ||
      mask == 255
  }

  /** What looks like a shrinkable opcode in front of a branch is one. */
  predicate BranchOk(list: seq<Act>, p: nat)
    requires p < |list|
  {
    Shrinkable(OpAt(list, p)) > 0 ==>
      p >= 1 && Literal(list[p - 1]) && (Shrinkable(OpAt(list, p)) == 4 ==> p >= 2 && Literal(list[p - 2]))
  }

  predicate ListOk(list: seq<Act>)
  {
    |list| > 0 && Ends(list[|list| - 1]) && forall p :: 0 <= p < |list| ==> ActOk(list, p)
  }

  /** A template begins at the start of the list or right after another has ended. */
  predicate StartOk(list: seq<Act>, start: nat)
  {
    start < |list| && (start == 0 || Ends(list[start - 1]))
  }

  predicate FitsByte(n: int)
  {
    -128 <= n <= 127
  }

  // ---- Items ---------------------------------------------------------------------

  /** An action as put into a section: Begin stands for the list offset stored first, Finish for the end of a template.
      */
  datatype What = Begin(start: nat) | Do(act: Act) | Finish

  /** Its index in the action list, where its data is in the section buffer, its argument, and the opcode byte in front
      of it. */
  datatype Item = Item(what: What, p: nat, pos: int, arg: int, op: byte)

  predicate IsRel(i: Item)
  {
    i.what.Do? && (i.what.act.RelLG? || i.what.act.RelPC?)
  }

  predicate IsLabel(i: Item)
  {
    i.what.Do? && (i.what.act.LabelLG? || i.what.act.LabelPC?)
  }

  /** Refers to a label. */
  predicate IsRef(i: Item)
  {
    IsRel(i) || (i.what.Do? && (i.what.act.ImmLG? || i.what.act.ImmPC?))
  }

  predicate IsAlign(i: Item)
  {
    i.what.Do? && i.what.act.Align?
  }

  /** How many buffer positions an item takes. */
  function Slots(i: Item): nat
  {
    match i.what
    case Begin(_) => 1
    case Finish => 0
    case Do(a) => if Literal(a) || Ends(a) then 0 else if a.RelLG? || a.RelPC? then 2 else 1
  }

  /** The most bytes an item can take, which is what pass 1 reckons with. */
  function MaxSize(i: Item): int
  {
    match i.what
    case Begin(_) => 0
    case Finish => 0
    case Do(a) =>
      match a
      case Byte(_) => 1
      case Esc(_) => 1
      case ImmS => 1
      case ImmB => 1
      case ImmW => 2
      case ImmD => 4
      case ImmWB => if FitsByte(i.arg) then 1 else 2
      case ImmDB => if FitsByte(i.arg) then 1 else 4
      case Space(_) => i.arg
      case RelA => 4
      case RelLG(_) => 4
      case RelPC => 4
      case ImmLG(_) => 4
      case ImmPC => 4
      case Align(mask) => mask
      case _ => 0
  }

  predicate ArgOk(i: Item)
  {
    i.what.Do? ==>
      match i.what.act
      case ImmS => FitsByte(i.arg)
      case ImmB => 0 <= i.arg < 256
      case ImmW => 0 <= i.arg < 65536
      case ImmWB => FitsByte(i.arg) || 0 <= i.arg < 65536
      case Space(_) => i.arg >= 0
      case Align(mask) => MaskOk(mask)
      case _ => true
  }

  /** Offset estimates: the greatest offset that each place can have. */
  function Est(g: seq<Item>, k: nat): int
    requires k <= |g|
  {
    if k == 0 then 0 else Est(g, k - 1) + MaxSize(g[k - 1])
  }

  function Used(g: seq<Item>, k: nat): nat
    requires k <= |g|
  {
    if k == 0 then 0 else Used(g, k - 1) + Slots(g[k - 1])
  }

  lemma {:induction false} EstPrefix(g: seq<Item>, h: seq<Item>, k: nat)
    requires k <= |g|
    ensures Est(g + h, k) == Est(g, k) && Used(g + h, k) == Used(g, k)
  {
    if k > 0 { EstPrefix(g, h, k - 1); }
  }

  lemma {:induction false} EstSuffix(g: seq<Item>, h: seq<Item>, k: nat)
    requires k <= |h|
    ensures Est(g + h, |g| + k) == Est(g, |g|) + Est(h, k) && Used(g + h, |g| + k) == Used(g, |g|) + Used(h, k)
  {
    if k > 0 {
      EstSuffix(g, h, k - 1);
      assert (g + h)[|g| + k - 1] == h[k - 1];
    } else {
      EstPrefix(g, h, |g|);
    }
  }

  // ---- Items in the order of the action list ---------------------------------------

  /** Where decoding goes on after an item. */
  function After(a: Item): nat
  {
    if a.what.Begin? then a.what.start else a.p + 1
  }

  /** The item that the action at p gives, but for its position and argument. */
  predicate Decodes(list: seq<Act>, b: Item, p: nat)
  {
    p < |list| && b.p == p && b.op == OpAt(list, p) && b.what == if Ends(list[p]) then Finish else Do(list[p])
  }

  predicate Follows(list: seq<Act>, a: Item, b: Item)
  {
    if a.what.Finish? then b.what.Begin? && StartOk(list, b.what.start) else Decodes(list, b, After(a))
  }

  /** The items are those of a number of templates, the last one possibly not yet finished. */
  predicate Decoded(list: seq<Act>, g: seq<Item>)
  {
    (g != [] ==> g[0].what.Begin? && StartOk(list, g[0].what.start)) &&
    forall k {:trigger g[k]} :: 0 < k < |g| ==> Follows(list, g[k - 1], g[k])
  }

  /** Templates that are complete. */
  predicate Complete(list: seq<Act>, g: seq<Item>)
  {
    Decoded(list, g) && (g != [] ==> g[|g| - 1].what.Finish?)
  }

  lemma DecodedMore(list: seq<Act>, g: seq<Item>, b: Item)
    requires Decoded(list, g)
    requires if g == [] then b.what.Begin? && StartOk(list, b.what.start) else Follows(list, g[|g| - 1], b)
    ensures Decoded(list, g + [b])
  {
    var h := g + [b];
    forall k | 0 < k < |h| ensures Follows(list, h[k - 1], h[k]) {
      if k < |g| { assert Follows(list, g[k - 1], g[k]); }
    }
  }

  /** The literal bytes that an action relies on come right before it. */
  lemma LiteralBefore(list: seq<Act>, g: seq<Item>, k: nat)
    requires Decoded(list, g) && ListOk(list) && k < |g| && g[k].what.Do?
    requires g[k].p >= 1 && Literal(list[g[k].p - 1])
    ensures k >= 1 && g[k - 1].what == Do(list[g[k].p - 1]) && g[k - 1].p == g[k].p - 1
  {
    assert k > 0;
    assert Follows(list, g[k - 1], g[k]);
    assert k > 1 ==> Follows(list, g[k - 2], g[k - 1]);
  }
}
