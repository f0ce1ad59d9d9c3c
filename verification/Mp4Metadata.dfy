/**
 Writing the iTunes metadata box of a moov: replaced or appended, the moov still parses, the
 samples survive, and writing the same metadata again changes nothing - unless the last
 box of the moov runs to the end of the buffer, which then swallows the appended box.
 */
module Mp4Metadata {
  import opened Bytes
  import opened Mp4Boxes
  import opened Mp4Edits
  import opened Mp4Tree
  import opened Mp4Shift
  import opened Mp4Splice
  import opened Mp4Surgery
  import opened Mp4Normalize
  import opened Mp4Samples

  // ----- the new box -----

  function AtomTree(typ: FourCc, payload: seq<byte>): (t: Tree)
    ensures Size(t) == 8 + |payload|
  {
    Tree(Short, typ, payload, Nil)
  }

  /** A built box reads back as a box of its type around its payload, if the size fits 32 bits. */
  lemma AtomParses(out: seq<byte>, pos: nat, typ: FourCc, payload: seq<byte>)
    requires pos + 8 + |payload| <= |out| && out[pos..pos + 8 + |payload|] == Atom(typ, payload)
    requires 8 + |payload| < 0x1_0000_0000 && typ < 0x1_0000_0000
    ensures Parses(out, pos, AtomTree(typ, payload))
  {
    hide ToBE, FromBE;
    Pow256Values();
    FromToBE(8 + |payload|, 4);
    FromToBE(typ, 4);
    ThreeFields(out, pos, ToBE(8 + |payload|, 4), ToBE(typ, 4), payload);
    var t := AtomTree(typ, payload);
    assert HeaderIs(out, pos, Short, Size(t), typ);
    assert ParsesAll(out, KidsPos(t, pos), t.kids);
  }

  // ----- replaced -----

  function UdtaIndex(moov: Tree): nat {
    FirstIndex(moov.kids, UDTA)
  }

  predicate HasUdta(moov: Tree) {
    UdtaIndex(moov) < Count(moov.kids)
  }

  /** Where the new box goes, and where what follows it began. */
  function UdtaAt(moov: Tree): nat {
    if HasUdta(moov) then KidPos(moov, 0, UdtaIndex(moov)) else Size(moov)
  }

  function UdtaEnd(moov: Tree): nat {
    if HasUdta(moov) then UdtaAt(moov) + Size(KidAt(moov.kids, UdtaIndex(moov))) else Size(moov)
  }

  /** The shifted moov with the new box in the place of the first udta, or at the end. */
  function UdtaTree(moov: Tree, payload: seq<byte>, base: nat): Tree {
    var delta := 8 + |payload| - (UdtaEnd(moov) - UdtaAt(moov));
    var kids := ShiftTraks(moov.kids, base + UdtaAt(moov), delta);
    var i := FirstIndex(kids, UDTA);
    moov.(kind := Explicit(moov.kind),
          kids := if i < Count(kids) then ReplaceAt(kids, i, AtomTree(UDTA, payload))
                  else Append(kids, AtomTree(UDTA, payload)))
  }

  lemma UdtaPlace(data: seq<byte>, moov: Tree)
    requires IsMoov(data, moov)
    ensures HdrLen(moov.kind) <= UdtaAt(moov) <= UdtaEnd(moov) <= Size(moov)
  {
  }

  /** The code works on the boxes of the tree. */
  lemma WithUdtaIs(data: seq<byte>, moov: Tree, base: nat, udta: seq<byte>)
    requires IsMoov(data, moov)
    ensures AllInBuffer([BoxOf(moov, 0)], data) && UdtaAt(moov) <= UdtaEnd(moov) <= |data|
    ensures WithUdta(data, base, udta) == Rewritten(data, [BoxOf(moov, 0)], UdtaAt(moov), UdtaEnd(moov), udta, base)
  {
    hide Parses, Shaped, Rewritten, FindChild, ChunkOffsets, TreeOffsets, Size, Find;
    ChainIn(data, moov, []);
    ChunkOffsetsIs(data, moov);
    ChildFound(data, 0, moov, UDTA);
    UdtaPlace(data, moov);
  }

  /** Room for the new size, and an explicit end in front of an appended box. */
  ghost predicate UdtaFits(moov: Tree, payload: seq<byte>) {
    && 8 + |payload| < 0x1_0000_0000
    && PathFits(moov, [], 8 + |payload| - (UdtaEnd(moov) - UdtaAt(moov)))
    && (HasUdta(moov) || !HasToEndAll(moov.kids))
  }

  lemma ShiftedUdta(moov: Tree, insertPos: int, delta: int)
    ensures var m := ShiftMoov(moov, insertPos, delta);
            && UdtaIndex(m) == UdtaIndex(moov) && HasUdta(m) == HasUdta(moov)
            && UdtaAt(m) == UdtaAt(moov) && UdtaEnd(m) == UdtaEnd(moov)
            && HasToEndAll(m.kids) == HasToEndAll(moov.kids)
  {
    hide ShiftTraks;
    var m := ShiftMoov(moov, insertPos, delta);
    ShiftTraksShape(moov.kids, insertPos, delta);
    ShapeKids(moov.kids, m.kids, UdtaIndex(moov), UDTA);
    ShapeKeepsSizeAll(moov.kids, m.kids);
    if HasUdta(moov) {
      ShapeKeepsSize(KidAt(moov.kids, UdtaIndex(moov)), KidAt(m.kids, UdtaIndex(moov)));
    }
    ShapeToEndAll(moov.kids, m.kids);
  }

  lemma {:induction false} ShapeToEnd(t: Tree, u: Tree)
    requires SameShape(t, u)
    ensures HasToEnd(t) == HasToEnd(u)
    decreases t
  {
    ShapeToEndAll(t.kids, u.kids);
  }

  lemma {:induction false} ShapeToEndAll(f: Forest, g: Forest)
    requires SameShapeAll(f, g)
    ensures HasToEndAll(f) == HasToEndAll(g)
    decreases f
  {
    if f.Cons? {
      ShapeToEnd(f.head, g.head);
      ShapeToEndAll(f.tail, g.tail);
    }
  }

  lemma UdtaPut(s: seq<byte>, out: seq<byte>, m: Tree, payload: seq<byte>, u: Tree)
    requires IsMoov(s, m) && UdtaAt(m) <= UdtaEnd(m) && (HasUdta(m) || !HasToEndAll(m.kids))
    requires EditDone(s, out, m, [], UdtaAt(m), UdtaEnd(m), Atom(UDTA, payload)) && 8 + |payload| < 0x1_0000_0000
    requires var box := AtomTree(UDTA, payload);
             u == m.(kind := Explicit(m.kind),
                     kids := if HasUdta(m) then ReplaceAt(m.kids, UdtaIndex(m), box) else Append(m.kids, box))
    ensures Parses(out, 0, u)
  {
    hide Parses, Shaped, Atom, HasToEndAll, TargetCut;
    var box := AtomTree(UDTA, payload);
    AtomParses(out, UdtaAt(m), UDTA, payload);
    if HasUdta(m) {
      KidSwapped(s, out, 0, m, UdtaIndex(m), box, 8 + |payload| - (UdtaEnd(m) - UdtaAt(m)));
    } else {
      KidAppended(s, out, 0, m, box);
    }
  }

  lemma {:induction false} AppendShaped(f: Forest, t: Tree)
    requires ShapedAll(f) && Shaped(t)
    ensures ShapedAll(Append(f, t))
    decreases f
  {
    if f.Cons? {
      AppendShaped(f.tail, t);
    }
  }

  /** The offsets and the shape of the result. */
  lemma UdtaKids(m: Tree, box: Tree, kind: HdrKind)
    requires Shaped(m) && m.typ == MOOV && box.typ == UDTA && Shaped(box) && HdrLen(kind) == HdrLen(m.kind)
    ensures var u := m.(kind := kind,
                        kids := if HasUdta(m) then ReplaceAt(m.kids, UdtaIndex(m), box) else Append(m.kids, box));
            Shaped(u) && TreeOffsets(u.kids) == TreeOffsets(m.kids)
            && Size(u) == Size(m) + Size(box) - (UdtaEnd(m) - UdtaAt(m))
  {
    hide TreeDown, TreeOffsets;
    if HasUdta(m) {
      ShapedReplaceAt(m.kids, UdtaIndex(m), box);
      OffsetsIgnore(m.kids, UdtaIndex(m), box);
    } else {
      AppendShaped(m.kids, box);
      AppendedOffsets(m.kids, box);
    }
  }

  lemma AtomShaped(payload: seq<byte>)
    ensures Shaped(AtomTree(UDTA, payload))
  {
  }

  lemma UdtaBuilt(s: seq<byte>, out: seq<byte>, m: Tree, payload: seq<byte>, u: Tree)
    requires IsMoov(s, m) && UdtaAt(m) <= UdtaEnd(m) && (HasUdta(m) || !HasToEndAll(m.kids))
    requires EditDone(s, out, m, [], UdtaAt(m), UdtaEnd(m), Atom(UDTA, payload)) && 8 + |payload| < 0x1_0000_0000
    requires var box := AtomTree(UDTA, payload);
             u == m.(kind := Explicit(m.kind),
                     kids := if HasUdta(m) then ReplaceAt(m.kids, UdtaIndex(m), box) else Append(m.kids, box))
    ensures IsMoov(out, u) && TreeOffsets(u.kids) == TreeOffsets(m.kids)
  {
    hide Parses, Shaped, Atom, TreeOffsets, HasToEndAll, FirstIndex, Size, TargetCut, Around;
    AtomShaped(payload);
    UdtaKids(m, AtomTree(UDTA, payload), Explicit(m.kind));
    UdtaPut(s, out, m, payload, u);
  }

  /** Replacing or appending the metadata box: the moov parses as the same tree with the one box
      new and every chunk offset shifted. */
  lemma UdtaParses(data: seq<byte>, moov: Tree, payload: seq<byte>, base: nat)
    requires IsMoov(data, moov) && UdtaFits(moov, payload)
    ensures var out, r := WithUdta(data, base, Atom(UDTA, payload)), UdtaTree(moov, payload, base);
            && IsMoov(out, r) && UdtaAt(moov) + 8 + |payload| <= |out|
            && out[UdtaAt(moov)..UdtaAt(moov) + 8 + |payload|] == Atom(UDTA, payload)
            && AllShifted(TreeOffsets(moov.kids), TreeOffsets(r.kids), base + UdtaAt(moov),
                          8 + |payload| - (UdtaEnd(moov) - UdtaAt(moov)))
  {
    hide IsMoov, Rewritten, WithUdta, Atom, AllShifted, TreeOffsets, ShiftTraks, HasToEndAll, FirstIndex, Size;
    hide EditDone;
    var at, to, box := UdtaAt(moov), UdtaEnd(moov), Atom(UDTA, payload);
    var delta := |box| - (to - at);
    var m := ShiftMoov(moov, base + at, delta);
    var out := WithUdta(data, base, box);
    UdtaPlace(data, moov);
    WithUdtaIs(data, moov, base, box);
    var s := EditAround(data, moov, [], at, to, box, base);
    ShiftedUdta(moov, base + at, delta);
    TraksShifted(moov.kids, base + at, delta);
    InsStands(s, out, m, [], at, to, box);
    UdtaBuilt(s, out, m, payload, UdtaTree(moov, payload, base));
  }

  // ----- written again -----

  lemma {:induction false} NoShiftOffsets(bytes: seq<byte>, width: nat, count: nat, insertPos: int)
    requires width > 0
    ensures ShiftOffsets(bytes, width, count, insertPos, 0) == bytes
    decreases count
  {
    hide ToBE, FromBE, Pow256;
    if count > 0 && |bytes| >= width {
      SmallMod(FromBE(bytes[..width]), Pow256(width));
      ToFromBE(bytes[..width]);
      NoShiftOffsets(bytes[width..], width, count - 1, insertPos);
    }
  }

  lemma NoShiftNamed(data: seq<byte>, stbl: Box, typ: FourCc, width: nat, insertPos: int)
    requires width > 0
    ensures ShiftNamed(data, stbl, typ, width, insertPos, 0) == data
  {
    hide ReadBox, ShiftOffsets;
    var found := FindChild(data, stbl.Body(), stbl.End(), typ);
    if found.Some? {
      var b := found.value;
      var payload := data[b.Body()..b.End()];
      if |payload| >= 8 {
        NoShiftOffsets(payload[8..], width, FromBE(payload[4..8]), insertPos);
      }
      assert ShiftTable(payload, width, insertPos, 0) == payload;
    }
  }

  lemma {:induction false} NoShift(data: seq<byte>, pos: int, end: int, insertPos: int)
    ensures ShiftFrom(data, pos, end, insertPos, 0) == data
    decreases end - pos
  {
    hide ShiftNamed, Descend;
    if pos + 8 <= end && ReadBox(data, pos).Some? {
      var b := ReadBox(data, pos).value;
      var chain := Descend(data, b, TO_STBL);
      if b.typ == TRAK && chain.Some? {
        NoShiftNamed(data, chain.value[3], STCO, 4, insertPos);
        NoShiftNamed(data, chain.value[3], CO64, 8, insertPos);
      }
      NoShift(data, b.End(), end, insertPos);
    }
  }

  lemma NoGrowth(data: seq<byte>, b: Box)
    requires ReadBox(data, b.offset) == Some(b) && Read32(data, b.offset) != 0
    ensures Grow(data, b, 0) == data
  {
    hide ToBE, FromBE;
    Pow256Values();
    ToFromBE(data[FieldPos(b)..FieldPos(b) + FieldWidth(b)]);
    SmallMod(b.size, Pow256(FieldWidth(b)));
    assert GrownField(b, 0) == data[FieldPos(b)..FieldPos(b) + FieldWidth(b)];
  }

  lemma NoRewrite(data: seq<byte>, b: Box, at: nat, to: nat, ins: seq<byte>, base: nat)
    requires ReadBox(data, b.offset) == Some(b) && Read32(data, b.offset) != 0
    requires at <= to <= |data| && data[at..to] == ins && AllInBuffer([b], data)
    ensures Rewritten(data, [b], at, to, ins, base) == data
  {
    hide ReadBox, ShiftFrom, Grow;
    NoShift(data, b.Body(), b.End(), base + at);
    NoGrowth(data, b);
    assert b in [b];
    InBufferTail([b], data, data);
    assert GrowAll(Grow(data, b, 0), [b][1..], 0) == data;
  }

  lemma {:induction false} AppendedFirst(f: Forest, t: Tree)
    requires FirstIndex(f, t.typ) == Count(f)
    ensures FirstIndex(Append(f, t), t.typ) == Count(f) < Count(Append(f, t))
    ensures KidAt(Append(f, t), Count(f)) == t && Before(Append(f, t), Count(f)) == SizeAll(f)
    decreases f
  {
    if f.Cons? {
      AppendedFirst(f.tail, t);
    }
  }

  lemma UdtaInKids(m: Tree, box: Tree, kind: HdrKind)
    requires box.typ == UDTA && HdrLen(kind) == HdrLen(m.kind)
    ensures var u := m.(kind := kind,
                        kids := if HasUdta(m) then ReplaceAt(m.kids, UdtaIndex(m), box) else Append(m.kids, box));
            && HasUdta(u) && KidAt(u.kids, UdtaIndex(u)) == box
            && UdtaAt(u) == UdtaAt(m) && UdtaEnd(u) == UdtaAt(m) + Size(box)
  {
    var i := UdtaIndex(m);
    if HasUdta(m) {
      ReplaceAtOther(m.kids, i, box, i, UDTA);
    } else {
      AppendedFirst(m.kids, box);
    }
  }

  /** In the result the new box is the first metadata box, where it was put. */
  lemma UdtaFound(moov: Tree, payload: seq<byte>, base: nat)
    requires Shaped(moov) && moov.typ == MOOV
    ensures var r := UdtaTree(moov, payload, base);
            && HasUdta(r) && KidAt(r.kids, UdtaIndex(r)) == AtomTree(UDTA, payload)
            && UdtaAt(r) == UdtaAt(moov) && UdtaEnd(r) == UdtaAt(moov) + 8 + |payload|
            && r.kind != ToEnd
  {
    hide ShiftTraks, Shaped, UdtaAt, UdtaEnd, FirstIndex, Size;
    var delta := 8 + |payload| - (UdtaEnd(moov) - UdtaAt(moov));
    ShiftedUdta(moov, base + UdtaAt(moov), delta);
    UdtaInKids(ShiftMoov(moov, base + UdtaAt(moov), delta), AtomTree(UDTA, payload), Explicit(moov.kind));
  }

  lemma ExplicitRead(data: seq<byte>, t: Tree)
    requires Parses(data, 0, t) && t.kind != ToEnd
    ensures ReadBox(data, 0) == Some(BoxOf(t, 0)) && Read32(data, 0) != 0
  {
  }

  /** Writing the same metadata again changes nothing, wherever the file has the moov by then. */
  lemma UdtaTwice(data: seq<byte>, moov: Tree, payload: seq<byte>, base: nat, base': nat)
    requires IsMoov(data, moov) && UdtaFits(moov, payload)
    ensures var out := WithUdta(data, base, Atom(UDTA, payload));
            WithUdta(out, base', Atom(UDTA, payload)) == out
  {
    hide Parses, Shaped, WithUdta, Atom, TreeOffsets, FirstIndex, Size, UdtaTree, AllShifted, UdtaFits, Rewritten;
    hide ReadBox, UdtaAt, UdtaEnd;
    var out, r := WithUdta(data, base, Atom(UDTA, payload)), UdtaTree(moov, payload, base);
    UdtaParses(data, moov, payload, base);
    UdtaFound(moov, payload, base);
    WithUdtaIs(out, r, base', Atom(UDTA, payload));
    ExplicitRead(out, r);
    NoRewrite(out, BoxOf(r, 0), UdtaAt(r), UdtaEnd(r), Atom(UDTA, payload), base');
  }

  // ----- the exception: a last box that runs to the end of the buffer -----

  function Last(f: Forest): Tree
    requires f.Cons?
  {
    if f.tail.Nil? then f.head else Last(f.tail)
  }

  /** The last box has size field 0. */
  predicate EndsOpen(f: Forest) {
    f.Cons? && Last(f).kind == ToEnd
  }

  lemma {:induction false} ShapeLast(f: Forest, g: Forest)
    requires SameShapeAll(f, g)
    ensures EndsOpen(f) == EndsOpen(g)
    decreases f
  {
    if f.Cons? {
      ShapeLast(f.tail, g.tail);
    }
  }

  /** The walk over the old children in the longer buffer: an open-ended last box takes the rest. */
  lemma {:induction false} WalkOver(s: seq<byte>, out: seq<byte>, pos: nat, f: Forest, typ: FourCc)
    requires ParsesAll(s, pos, f) && FirstIndex(f, typ) == Count(f) && pos + SizeAll(f) == |s| <= |out|
    requires Same(s, pos, out, pos, SizeAll(f))
    ensures FindChild(out, pos, |out|, typ) == if EndsOpen(f) then None else FindChild(out, |s|, |out|, typ)
    decreases f
  {
    hide ReadBox, Same, KindIs;
    if f.Cons? {
      var n := Size(f.head);
      SamePart(s, pos, out, pos, SizeAll(f), 0, n);
      SamePart(s, pos, out, pos, SizeAll(f), n, SizeAll(f.tail));
      if f.head.kind == ToEnd {
        EndsAtEnd(s, pos, f.head);
        OnlyLastOpen(s, pos, f);
        OpenRead(s, out, pos, f.head);
      } else {
        ClosedRead(s, out, pos, f.head);
        WalkOver(s, out, pos + n, f.tail, typ);
      }
    }
  }

  lemma OnlyLastOpen(s: seq<byte>, pos: nat, f: Forest)
    requires ParsesAll(s, pos, f) && f.Cons? && f.head.kind == ToEnd
    ensures f.tail == Nil
  {
    hide ReadBox;
    EndsAtEnd(s, pos, f.head);
    if f.tail.Cons? {
      EndsAtEndAll(s, pos + Size(f.head), f.tail);
    }
  }

  lemma OpenRead(s: seq<byte>, out: seq<byte>, pos: nat, t: Tree)
    requires Parses(s, pos, t) && t.kind == ToEnd && Same(s, pos, out, pos, Size(t)) && |s| <= |out|
    ensures ReadBox(out, pos) == Some(Box(pos, |out| - pos, 8, t.typ))
  {
    hide Same;
    SamePart(s, pos, out, pos, Size(t), 0, 4);
    SamePart(s, pos, out, pos, Size(t), 4, 4);
    SameSlices(s, pos, out, pos, 4);
    SameSlices(s, pos + 4, out, pos + 4, 4);
  }

  lemma ClosedRead(s: seq<byte>, out: seq<byte>, pos: nat, t: Tree)
    requires Parses(s, pos, t) && t.kind != ToEnd && Same(s, pos, out, pos, Size(t)) && |s| <= |out|
    ensures ReadBox(out, pos) == Some(BoxOf(t, pos))
  {
    hide Same, HasToEnd, HasToEndAll;
    EndsAtEnd(s, pos, t);
    SamePart(s, pos, out, pos, Size(t), 0, HdrLen(t.kind));
    HeaderMoved(s, pos, out, pos, t.kind, Size(t), t.typ);
  }

  /** What the second write finds after an append. */
  lemma AppendedRead(data: seq<byte>, moov: Tree, payload: seq<byte>, base: nat)
    requires IsMoov(data, moov) && !HasUdta(moov) && 8 + |payload| < 0x1_0000_0000
    requires PathFits(moov, [], 8 + |payload|)
    ensures var out := WithUdta(data, base, Atom(UDTA, payload));
            && |out| == |data| + 8 + |payload| && out[|data|..] == Atom(UDTA, payload)
            && var b := Box(0, |out|, HdrLen(moov.kind), MOOV);
               && ReadBox(out, 0) == Some(b) && Read32(out, 0) != 0
               && FindChild(out, b.Body(), b.End(), UDTA)
                  == if EndsOpen(moov.kids) then None else Some(Box(|data|, 8 + |payload|, 8, UDTA))
  {
    hide IsMoov, Rewritten, WithUdta, Atom, ShiftTraks, FirstIndex, Size, EditDone, Find, FindChild, ReadBox;
    var box := Atom(UDTA, payload);
    var out, m := WithUdta(data, base, box), ShiftMoov(moov, base + Size(moov), 8 + |payload|);
    UdtaPlace(data, moov);
    WithUdtaIs(data, moov, base, box);
    var s := EditAround(data, moov, [], Size(moov), Size(moov), box, base);
    ShiftedUdta(moov, base + Size(moov), 8 + |payload|);
    ShiftTraksShape(moov.kids, base + Size(moov), 8 + |payload|);
    ShapeLast(moov.kids, m.kids);
    MoovSize(data, moov);
    MoovSize(s, m);
    AppendedWalk(s, out, m, payload);
  }

  lemma MoovSize(data: seq<byte>, moov: Tree)
    requires IsMoov(data, moov)
    ensures Size(moov) == |data|
  {
  }

  lemma AppendedWalk(s: seq<byte>, out: seq<byte>, m: Tree, payload: seq<byte>)
    requires IsMoov(s, m) && !HasUdta(m) && 8 + |payload| < 0x1_0000_0000
    requires EditDone(s, out, m, [], |s|, |s|, Atom(UDTA, payload))
    ensures |out| == |s| + 8 + |payload| && out[|s|..] == Atom(UDTA, payload)
    ensures var b := Box(0, |out|, HdrLen(m.kind), MOOV);
            && ReadBox(out, 0) == Some(b) && Read32(out, 0) != 0
            && FindChild(out, b.Body(), b.End(), UDTA)
               == if EndsOpen(m.kids) then None else Some(Box(|s|, 8 + |payload|, 8, UDTA))
  {
    hide Same, Atom, ReadBox, Shaped, EndsOpen, Parses, FindChild, FirstIndex, Size, HeaderIs, EditDone, IsMoov;
    AppendDone(s, out, m, payload);
    MoovSize(s, m);
    WalkToAtom(s, out, m, payload);
  }

  lemma WalkToAtom(s: seq<byte>, out: seq<byte>, m: Tree, payload: seq<byte>)
    requires IsMoov(s, m) && !HasUdta(m) && 8 + |payload| < 0x1_0000_0000
    requires |out| == |s| + 8 + |payload| && out[|s|..|s| + 8 + |payload|] == Atom(UDTA, payload)
    requires |s| >= HdrLen(m.kind) && Same(s, HdrLen(m.kind), out, HdrLen(m.kind), |s| - HdrLen(m.kind))
    ensures FindChild(out, HdrLen(m.kind), |out|, UDTA)
            == if EndsOpen(m.kids) then None else Some(Box(|s|, 8 + |payload|, 8, UDTA))
  {
    hide IsMoov, HasUdta, Atom, Same, FindChild, EndsOpen, HdrLen, Parses, ParsesAll, FirstIndex, Count, SizeAll, Size;
    hide AtomTree;
    MoovKids(s, m);
    WalkOver(s, out, HdrLen(m.kind), m.kids, UDTA);
    AtomParses(out, |s|, UDTA, payload);
    AtomRead(out, |s|, payload);
  }

  lemma MoovKids(s: seq<byte>, m: Tree)
    requires IsMoov(s, m) && !HasUdta(m)
    ensures ParsesAll(s, HdrLen(m.kind), m.kids) && HdrLen(m.kind) + SizeAll(m.kids) == |s|
    ensures FirstIndex(m.kids, UDTA) == Count(m.kids)
  {
    hide Parses;
    MoovParts(s, m);
  }

  lemma AppendDone(s: seq<byte>, out: seq<byte>, m: Tree, payload: seq<byte>)
    requires IsMoov(s, m) && EditDone(s, out, m, [], |s|, |s|, Atom(UDTA, payload))
    ensures |out| == |s| + 8 + |payload| && out[|s|..|s| + 8 + |payload|] == Atom(UDTA, payload)
    ensures |s| >= HdrLen(m.kind) && Same(s, HdrLen(m.kind), out, HdrLen(m.kind), |s| - HdrLen(m.kind))
    ensures ReadBox(out, 0) == Some(Box(0, |out|, HdrLen(m.kind), MOOV)) && Read32(out, 0) != 0
  {
    hide Same, Atom, ReadBox, Shaped, Parses;
  }

  lemma AtomRead(out: seq<byte>, pos: nat, payload: seq<byte>)
    requires Parses(out, pos, AtomTree(UDTA, payload)) && pos + 8 + |payload| == |out|
    ensures FindChild(out, pos, |out|, UDTA) == Some(Box(pos, 8 + |payload|, 8, UDTA))
  {
    hide ReadBox;
  }

  /** An appended metadata box is found again, and writing twice is writing once, exactly when the
      moov did not end in a box of size field 0; with a metadata box to replace, always. */
  lemma UdtaTwiceIff(data: seq<byte>, moov: Tree, payload: seq<byte>, base: nat, base': nat)
    requires IsMoov(data, moov) && 8 + |payload| < 0x1_0000_0000
    requires PathFits(moov, [], 8 + |payload| - (UdtaEnd(moov) - UdtaAt(moov)))
    ensures var out := WithUdta(data, base, Atom(UDTA, payload));
            WithUdta(out, base', Atom(UDTA, payload)) == out <==> HasUdta(moov) || !EndsOpen(moov.kids)
  {
    hide IsMoov, PathFits, Rewritten, Atom, FirstIndex, Size, EndsOpen, ReadBox, AllInBuffer;
    if HasUdta(moov) {
      UdtaTwice(data, moov, payload, base, base');
    } else {
      AppendedRead(data, moov, payload, base);
      WrittenAgain(WithUdta(data, base, Atom(UDTA, payload)), |data|, payload, HdrLen(moov.kind), base',
                   EndsOpen(moov.kids));
    }
  }

  lemma WrittenAgain(out: seq<byte>, at: nat, payload: seq<byte>, hdr: nat, base: nat, open: bool)
    requires |out| == at + 8 + |payload| && out[at..] == Atom(UDTA, payload)
    requires ReadBox(out, 0) == Some(Box(0, |out|, hdr, MOOV)) && Read32(out, 0) != 0
    requires FindChild(out, hdr, |out|, UDTA) == if open then None else Some(Box(at, 8 + |payload|, 8, UDTA))
    ensures WithUdta(out, base, Atom(UDTA, payload)) == out <==> !open
  {
    hide Rewritten, Atom, ReadBox;
    var b := Box(0, |out|, hdr, MOOV);
    assert FindChild(out, 0, |out|, MOOV) == Some(b);
    if !open {
      NoRewrite(out, b, at, |out|, Atom(UDTA, payload), base);
    }
  }

  /** After an append the moov parses as the old tree with the new box as last child exactly when no box in
      it, at any depth, has size field 0. */
  lemma AppendParsesIff(data: seq<byte>, moov: Tree, payload: seq<byte>, base: nat)
    requires IsMoov(data, moov) && !HasUdta(moov) && 8 + |payload| < 0x1_0000_0000
    requires PathFits(moov, [], 8 + |payload|)
    ensures Parses(WithUdta(data, base, Atom(UDTA, payload)), 0, UdtaTree(moov, payload, base))
            <==> !HasToEndAll(moov.kids)
  {
    hide Rewritten, WithUdta, Atom, TreeOffsets, ShiftTraks, FirstIndex, Size, AllShifted, HasToEndAll, ReadBox;
    hide EndsOpen, FindChild, Shaped;
    hide Parses;
    if !HasToEndAll(moov.kids) {
      UdtaParses(data, moov, payload, base);
    } else if Parses(WithUdta(data, base, Atom(UDTA, payload)), 0, UdtaTree(moov, payload, base)) {
      OpenLost(WithUdta(data, base, Atom(UDTA, payload)), moov, payload, base);
      assert false;
    }
  }

  lemma OpenLost(out: seq<byte>, moov: Tree, payload: seq<byte>, base: nat)
    requires Parses(out, 0, UdtaTree(moov, payload, base)) && !HasUdta(moov) && HasToEndAll(moov.kids)
    ensures false
  {
    hide Parses, ShiftTraks, FirstIndex, Size, HasToEndAll;
    var kids := ShiftTraks(moov.kids, base + Size(moov), 8 + |payload|);
    ShiftedUdta(moov, base + Size(moov), 8 + |payload|);
    BoxParts(out, 0, UdtaTree(moov, payload, base));
    OpenNotLast(out, HdrLen(moov.kind) + |moov.fixed|, kids, AtomTree(UDTA, payload));
  }

  lemma {:induction false} OpenNotLast(out: seq<byte>, pos: nat, f: Forest, t: Tree)
    requires ParsesAll(out, pos, Append(f, t)) && HasToEndAll(f)
    ensures false
    decreases f
  {
    hide ReadBox;
    EndsAtEnd(out, pos, f.head);
    EndsAtEndAll(out, pos + Size(f.head), Append(f.tail, t));
    if HasToEndAll(f.tail) {
      OpenNotLast(out, pos + Size(f.head), f.tail, t);
    }
  }
}
