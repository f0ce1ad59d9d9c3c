/**
 A metadata box appended to a moov in which size fields are 0. A box of size field 0 at the end of the
 old buffer runs to the end of the new one: what the walks find there, which chunk offsets a
 player reads, and when the samples survive.
 */
module Mp4Append {
  import opened Bytes
  import opened Mp4Boxes
  import opened Mp4Edits
  import opened Mp4Tree
  import opened Mp4Shift
  import opened Mp4Splice
  import opened Mp4Surgery
  import opened Mp4Normalize
  import opened Mp4Samples
  import opened Mp4Metadata

  // ----- the longer buffer -----

  /** From `from` on, out is s and then the new box. */
  ghost predicate Longer(s: seq<byte>, out: seq<byte>, from: nat, payload: seq<byte>) {
    && from <= |s| && |out| == |s| + 8 + |payload| && 8 + |payload| < 0x1_0000_0000
    && Same(s, from, out, from, |s| - from) && out[|s|..] == Atom(UDTA, payload)
  }

  /** A box as the longer buffer has it. */
  function BoxIn(t: Tree, pos: nat, len: nat): Box
    requires pos <= len
  {
    if t.kind == ToEnd then Box(pos, len - pos, 8, t.typ) else BoxOf(t, pos)
  }

  lemma LongerPart(s: seq<byte>, out: seq<byte>, from: nat, payload: seq<byte>, pos: nat, n: nat)
    requires Longer(s, out, from, payload) && from <= pos && pos + n <= |s|
    ensures Same(s, pos, out, pos, n) && |out| == |s| + 8 + |payload|
  {
    hide Same, Atom;
    SamePart(s, from, out, from, |s| - from, pos - from, n);
  }

  lemma LongerRead(s: seq<byte>, out: seq<byte>, from: nat, payload: seq<byte>, pos: nat, t: Tree)
    requires Longer(s, out, from, payload) && from <= pos && Parses(s, pos, t)
    ensures pos + Size(t) <= |s| <= |out| && (t.kind == ToEnd ==> pos + Size(t) == |s|)
    ensures ReadBox(out, pos) == Some(BoxIn(t, pos, |out|))
  {
    hide ReadBox, Longer, Parses;
    EndsAtEnd(s, pos, t);
    LongerPart(s, out, from, payload, pos, Size(t));
    if t.kind == ToEnd {
      OpenRead(s, out, pos, t);
    } else {
      ClosedRead(s, out, pos, t);
    }
  }

  lemma AtomThere(s: seq<byte>, out: seq<byte>, from: nat, payload: seq<byte>)
    requires Longer(s, out, from, payload)
    ensures Parses(out, |s|, AtomTree(UDTA, payload))
    ensures ReadBox(out, |s|) == Some(Box(|s|, 8 + |payload|, 8, UDTA)) && |s| + 8 + |payload| == |out|
  {
    hide Atom, ReadBox, Same;
    AtomParses(out, |s|, UDTA, payload);
    BoxRead(out, |s|, AtomTree(UDTA, payload));
  }

  lemma PastAtom(s: seq<byte>, out: seq<byte>, from: nat, payload: seq<byte>, typ: FourCc)
    requires Longer(s, out, from, payload) && typ != UDTA
    ensures |s| <= |out| && FindChild(out, |s|, |out|, typ) == None && FindChild(out, |out|, |out|, typ) == None
  {
    hide ReadBox, Longer, Parses, Atom, AtomTree;
    AtomThere(s, out, from, payload);
  }

  lemma IndexStep(f: Forest, typ: FourCc)
    ensures f.Nil? ==> FirstIndex(f, typ) == 0 == Count(f)
    ensures f.Cons? && f.head.typ == typ ==>
              FirstIndex(f, typ) == 0 < Count(f) && KidAt(f, 0) == f.head && Before(f, 0) == 0
    ensures f.Cons? && f.head.typ != typ ==>
              var i := FirstIndex(f.tail, typ);
              && FirstIndex(f, typ) == i + 1 && Count(f) == Count(f.tail) + 1
              && Before(f, i + 1) == Size(f.head) + Before(f.tail, i)
              && (i < Count(f.tail) ==> KidAt(f, i + 1) == KidAt(f.tail, i))
  {
  }

  /** The walk over old children, up to their old end or to the new end of the buffer. */
  lemma {:induction false} WalkLonger(s: seq<byte>, out: seq<byte>, from: nat, payload: seq<byte>, pos: nat, f: Forest,
                                      end: nat, typ: FourCc)
    requires Longer(s, out, from, payload) && from <= pos && ParsesAll(s, pos, f) && typ != UDTA
    requires end == pos + SizeAll(f) || (pos + SizeAll(f) == |s| && end == |out|)
    requires pos + SizeAll(f) <= |s|
    ensures pos <= |s| <= |out|
    ensures var i := FirstIndex(f, typ);
            FindChild(out, pos, end, typ)
            == if i < Count(f) then Some(BoxIn(KidAt(f, i), pos + Before(f, i), |out|)) else None
    decreases f
  {
    hide ReadBox, Longer, Parses, FirstIndex, KidAt, Before;
    PastAtom(s, out, from, payload, typ);
    IndexStep(f, typ);
    if f.Cons? {
      LongerRead(s, out, from, payload, pos, f.head);
      if f.head.kind == ToEnd {
        OnlyLastOpen(s, pos, f);
      } else {
        WalkLonger(s, out, from, payload, pos + Size(f.head), f.tail, end, typ);
      }
    }
  }

  lemma ChildLonger(s: seq<byte>, out: seq<byte>, from: nat, payload: seq<byte>, pos: nat, t: Tree, typ: FourCc)
    requires Longer(s, out, from, payload) && from <= pos && Parses(s, pos, t) && Shaped(t) && Walkable(t.typ)
    requires typ != UDTA
    ensures pos + Size(t) <= |s| <= |out|
    ensures var i, b := FirstIndex(t.kids, typ), BoxIn(t, pos, |out|);
            FindChild(out, ChildStart(b), b.End(), typ)
            == if i < Count(t.kids) then Some(BoxIn(KidAt(t.kids, i), KidPos(t, pos, i), |out|)) else None
  {
    hide FindChild, Longer, Parses, Shaped, ReadBox, FirstIndex, KidAt, Count, Before;
    LongerRead(s, out, from, payload, pos, t);
    BoxParts(s, pos, t);
    KidsStart(t, pos);
    WalkLonger(s, out, from, payload, KidsPos(t, pos), t.kids, BoxIn(t, pos, |out|).End(), typ);
  }

  // ----- the offsets a player reads -----

  /** The payload of a table, with what is behind it if it runs to the end. */
  function Payload(t: Tree, tail: seq<byte>): seq<byte> {
    if t.kind == ToEnd then t.fixed + tail else t.fixed
  }

  function LongNamed(t: Tree, typ: FourCc, width: nat, tail: seq<byte>): seq<Entry>
    requires width > 0
  {
    var i := FirstIndex(t.kids, typ);
    if i == Count(t.kids) then [] else AsEntries(width, TableOffsets(Payload(KidAt(t.kids, i), tail), width))
  }

  function LongDown(t: Tree, types: seq<FourCc>, tail: seq<byte>): seq<Entry>
    decreases |types|
  {
    if types == [] then LongNamed(t, STCO, 4, tail) + LongNamed(t, CO64, 8, tail) else
    var i := FirstIndex(t.kids, types[0]);
    if i == Count(t.kids) then [] else LongDown(KidAt(t.kids, i), types[1..], tail)
  }

  function LongTraks(f: Forest, tail: seq<byte>): seq<Entry> {
    match f
    case Nil => []
    case Cons(h, rest) => (if h.typ == TRAK then LongDown(h, TO_STBL, tail) else []) + LongTraks(rest, tail)
  }

  lemma PayloadLonger(s: seq<byte>, out: seq<byte>, from: nat, payload: seq<byte>, pos: nat, t: Tree)
    requires Longer(s, out, from, payload) && from <= pos && Parses(s, pos, t) && t.kids == Nil
    ensures pos + Size(t) <= |s| <= |out|
    ensures var b := BoxIn(t, pos, |out|);
            b.Body() <= b.End() <= |out| && out[b.Body()..b.End()] == Payload(t, Atom(UDTA, payload))
  {
    hide Longer, Parses, Atom;
    LongerRead(s, out, from, payload, pos, t);
    LeafPayload(s, pos, t);
    var h := pos + HdrLen(t.kind);
    LongerPart(s, out, from, payload, h, |t.fixed|);
    SameSlices(s, h, out, h, |t.fixed|);
    assert out[|s|..] == Atom(UDTA, payload) by {
      TailOf(s, out, from, payload);
    }
    if t.kind == ToEnd {
      assert out[h..|out|] == out[h..|s|] + out[|s|..];
    }
  }

  lemma TailOf(s: seq<byte>, out: seq<byte>, from: nat, payload: seq<byte>)
    requires Longer(s, out, from, payload)
    ensures |s| <= |out| && out[|s|..] == Atom(UDTA, payload)
  {
  }

  lemma NamedLonger(s: seq<byte>, out: seq<byte>, from: nat, payload: seq<byte>, pos: nat, t: Tree, typ: FourCc,
                    width: nat)
    requires Longer(s, out, from, payload) && from <= pos && Parses(s, pos, t) && Shaped(t) && t.typ == STBL
    requires width > 0 && (typ == STCO || typ == CO64)
    ensures pos <= |out|
    ensures ReadNamed(out, BoxIn(t, pos, |out|), typ, width) == LongNamed(t, typ, width, Atom(UDTA, payload))
  {
    hide FindChild, Parses, TableOffsets, Longer, Atom;
    ChildLonger(s, out, from, payload, pos, t, typ);
    var i := FirstIndex(t.kids, typ);
    if i < Count(t.kids) {
      KidFound(s, pos, t, i);
      PayloadLonger(s, out, from, payload, KidPos(t, pos, i), KidAt(t.kids, i));
    }
  }

  lemma {:induction false} DownLonger(s: seq<byte>, out: seq<byte>, from: nat, payload: seq<byte>, pos: nat, t: Tree,
                                      types: seq<FourCc>)
    requires Longer(s, out, from, payload) && from <= pos && Parses(s, pos, t) && Shaped(t)
    requires WalkTypes(t.typ, types) && UDTA !in types
    requires (if types == [] then t.typ else types[|types| - 1]) == STBL
    ensures pos <= |out|
    ensures LongDown(t, types, Atom(UDTA, payload))
         == match Descend(out, BoxIn(t, pos, |out|), types)
            case None => []
            case Some(chain) => ReadNamed(out, chain[|types|], STCO, 4) + ReadNamed(out, chain[|types|], CO64, 8)
    decreases |types|
  {
    hide FindChild, Walkable, ReadNamed, LongNamed, Parses, Shaped, Longer, Atom;
    if types == [] {
      NamedLonger(s, out, from, payload, pos, t, STCO, 4);
      NamedLonger(s, out, from, payload, pos, t, CO64, 8);
    } else {
      ChildLonger(s, out, from, payload, pos, t, types[0]);
      var i := FirstIndex(t.kids, types[0]);
      if i < Count(t.kids) {
        KidFound(s, pos, t, i);
        DownLonger(s, out, from, payload, KidPos(t, pos, i), KidAt(t.kids, i), types[1..]);
      }
    }
  }

  lemma {:induction false} ReadLonger(s: seq<byte>, out: seq<byte>, from: nat, payload: seq<byte>, pos: nat, f: Forest)
    requires Longer(s, out, from, payload) && from <= pos && ParsesAll(s, pos, f) && ShapedAll(f)
    requires pos + SizeAll(f) == |s|
    ensures ReadFrom(out, pos, |out|) == LongTraks(f, Atom(UDTA, payload))
    decreases f
  {
    hide ReadBox, Descend, LongDown, ReadNamed, Longer, Parses, Shaped, Atom;
    AtomThere(s, out, from, payload);
    assert ReadFrom(out, |out|, |out|) == [];
    if f.Nil? {
      assert ReadFrom(out, |s|, |out|) == [];
    } else {
      LongerRead(s, out, from, payload, pos, f.head);
      if f.head.typ == TRAK {
        TypesWalkable();
        DownLonger(s, out, from, payload, pos, f.head, TO_STBL);
      }
      if f.head.kind == ToEnd {
        OnlyLastOpen(s, pos, f);
      } else {
        ReadLonger(s, out, from, payload, pos + Size(f.head), f.tail);
      }
    }
  }

  // ----- tables that gain nothing -----

  /** The table holds all the entries it counts; where the count itself is cut off, what follows either
      counts none or is too short for one. */
  predicate HoldsAll(fixed: seq<byte>, width: nat, tail: seq<byte>) {
    if |fixed| >= 8 then FromBE(fixed[4..8]) * width <= |fixed| - 8
    else |fixed + tail| < 8 + width || FromBE((fixed + tail)[4..8]) == 0
  }

  lemma {:induction false} OffsetsLonger(bytes: seq<byte>, tail: seq<byte>, width: nat, count: nat)
    requires 0 < width <= |tail|
    ensures |Offsets(bytes + tail, width, count)| >= |Offsets(bytes, width, count)|
    ensures count * width <= |bytes| ==> Offsets(bytes + tail, width, count) == Offsets(bytes, width, count)
    ensures count * width > |bytes| ==> |Offsets(bytes + tail, width, count)| > |Offsets(bytes, width, count)|
    decreases count
  {
    hide FromBE;
    if count > 0 {
      assert count * width == (count - 1) * width + width;
      assert (count - 1) * width >= 0;
      if |bytes| >= width {
        assert (bytes + tail)[..width] == bytes[..width] && (bytes + tail)[width..] == bytes[width..] + tail;
        OffsetsLonger(bytes[width..], tail, width, count - 1);
      }
    }
  }

  lemma TableLonger(fixed: seq<byte>, tail: seq<byte>, width: nat)
    requires 0 < width <= 8 <= |tail|
    ensures |TableOffsets(fixed + tail, width)| >= |TableOffsets(fixed, width)|
    ensures HoldsAll(fixed, width, tail) ==> TableOffsets(fixed + tail, width) == TableOffsets(fixed, width)
    ensures !HoldsAll(fixed, width, tail) ==> |TableOffsets(fixed + tail, width)| > |TableOffsets(fixed, width)|
  {
    hide FromBE;
    var all := fixed + tail;
    if |fixed| >= 8 {
      assert all[4..8] == fixed[4..8] && all[8..] == fixed[8..] + tail;
      OffsetsLonger(fixed[8..], tail, width, FromBE(fixed[4..8]));
    }
  }

  predicate NamedHolds(t: Tree, typ: FourCc, width: nat, tail: seq<byte>) {
    var i := FirstIndex(t.kids, typ);
    i < Count(t.kids) && KidAt(t.kids, i).kind == ToEnd ==> HoldsAll(KidAt(t.kids, i).fixed, width, tail)
  }

  predicate DownHolds(t: Tree, types: seq<FourCc>, tail: seq<byte>)
    decreases |types|
  {
    if types == [] then NamedHolds(t, STCO, 4, tail) && NamedHolds(t, CO64, 8, tail) else
    var i := FirstIndex(t.kids, types[0]);
    i < Count(t.kids) ==> DownHolds(KidAt(t.kids, i), types[1..], tail)
  }

  /** Every offset table of size field 0 that is reached from a track holds all the entries it counts. */
  predicate TablesHold(f: Forest, tail: seq<byte>) {
    f.Cons? ==> (f.head.typ == TRAK ==> DownHolds(f.head, TO_STBL, tail)) && TablesHold(f.tail, tail)
  }

  // ----- the tables of the longer buffer are those of the tree exactly if they hold all -----

  /** More entries, unless they are the same. */
  ghost predicate MoreUnless(longer: seq<Entry>, es: seq<Entry>, same: bool) {
    |longer| >= |es| && if same then longer == es else |longer| > |es|
  }

  lemma MoreAppend(a: seq<Entry>, b: seq<Entry>, p: bool, c: seq<Entry>, d: seq<Entry>, q: bool)
    requires MoreUnless(a, b, p) && MoreUnless(c, d, q)
    ensures MoreUnless(a + c, b + d, p && q)
  {
  }

  lemma NamedMore(t: Tree, typ: FourCc, width: nat, tail: seq<byte>)
    requires 0 < width <= 8 <= |tail|
    ensures MoreUnless(LongNamed(t, typ, width, tail), TreeNamed(t, typ, width), NamedHolds(t, typ, width, tail))
  {
    hide TableOffsets, HoldsAll;
    var i := FirstIndex(t.kids, typ);
    if i < Count(t.kids) {
      TableLonger(KidAt(t.kids, i).fixed, tail, width);
    }
  }

  lemma {:induction false} DownMore(t: Tree, types: seq<FourCc>, tail: seq<byte>)
    requires |tail| >= 8
    ensures MoreUnless(LongDown(t, types, tail), TreeDown(t, types), DownHolds(t, types, tail))
    decreases |types|
  {
    hide LongNamed, TreeNamed, NamedHolds;
    if types == [] {
      hide MoreUnless;
      NamedMore(t, STCO, 4, tail);
      NamedMore(t, CO64, 8, tail);
      MoreAppend(LongNamed(t, STCO, 4, tail), TreeNamed(t, STCO, 4), NamedHolds(t, STCO, 4, tail),
                 LongNamed(t, CO64, 8, tail), TreeNamed(t, CO64, 8), NamedHolds(t, CO64, 8, tail));
    } else {
      var i := FirstIndex(t.kids, types[0]);
      if i < Count(t.kids) {
        DownMore(KidAt(t.kids, i), types[1..], tail);
      }
    }
  }

  lemma {:induction false} TraksMore(f: Forest, tail: seq<byte>)
    requires |tail| >= 8
    ensures MoreUnless(LongTraks(f, tail), TreeOffsets(f), TablesHold(f, tail))
    decreases f
  {
    hide LongDown, TreeDown, DownHolds;
    if f.Cons? {
      TraksMore(f.tail, tail);
      if f.head.typ == TRAK {
        DownMore(f.head, TO_STBL, tail);
      }
      MoreAppend(if f.head.typ == TRAK then LongDown(f.head, TO_STBL, tail) else [],
                 if f.head.typ == TRAK then TreeDown(f.head, TO_STBL) else [],
                 f.head.typ == TRAK ==> DownHolds(f.head, TO_STBL, tail),
                 LongTraks(f.tail, tail), TreeOffsets(f.tail), TablesHold(f.tail, tail));
    }
  }

  // ----- the shift leaves the counts alone -----

  lemma HoldsShifted(fixed: seq<byte>, width: nat, step: nat, tail: seq<byte>, insertPos: int, delta: int)
    requires step > 0
    ensures HoldsAll(ShiftTable(fixed, step, insertPos, delta), width, tail) == HoldsAll(fixed, width, tail)
  {
    hide FromBE, ShiftOffsets;
    var out := ShiftTable(fixed, step, insertPos, delta);
    if |fixed| >= 8 {
      assert out[..8] == fixed[..8];
      SliceOfSlice(out, 0, 8, 4, 8);
      SliceOfSlice(fixed, 0, 8, 4, 8);
    }
  }

  lemma NamedShifts(t: Tree, typ: FourCc, width: nat, tail: seq<byte>, moved: FourCc, step: nat, insertPos: int,
                    delta: int)
    requires step > 0
    ensures NamedHolds(ShiftFirst(t, moved, step, insertPos, delta), typ, width, tail)
         == NamedHolds(t, typ, width, tail)
  {
    hide ShiftTable, HoldsAll;
    var i := FirstIndex(t.kids, moved);
    if i < Count(t.kids) {
      var leaf := KidAt(t.kids, i);
      HoldsShifted(leaf.fixed, width, step, tail, insertPos, delta);
      ReplaceAtOther(t.kids, i, leaf.(fixed := ShiftTable(leaf.fixed, step, insertPos, delta)),
                     FirstIndex(t.kids, typ), typ);
    }
  }

  lemma {:induction false} DownShifts(t: Tree, types: seq<FourCc>, tail: seq<byte>, insertPos: int, delta: int)
    ensures DownHolds(ShiftDown(t, types, insertPos, delta), types, tail) == DownHolds(t, types, tail)
    decreases |types|
  {
    hide NamedHolds, ShiftFirst;
    if types == [] {
      var u := ShiftFirst(t, STCO, 4, insertPos, delta);
      NamedShifts(t, STCO, 4, tail, STCO, 4, insertPos, delta);
      NamedShifts(t, CO64, 8, tail, STCO, 4, insertPos, delta);
      NamedShifts(u, STCO, 4, tail, CO64, 8, insertPos, delta);
      NamedShifts(u, CO64, 8, tail, CO64, 8, insertPos, delta);
    } else {
      var i := FirstIndex(t.kids, types[0]);
      if i < Count(t.kids) {
        var kid := KidAt(t.kids, i);
        DownShifts(kid, types[1..], tail, insertPos, delta);
        ReplaceAtOther(t.kids, i, ShiftDown(kid, types[1..], insertPos, delta), i, types[0]);
      }
    }
  }

  lemma {:induction false} TraksHold(f: Forest, tail: seq<byte>, insertPos: int, delta: int)
    ensures TablesHold(ShiftTraks(f, insertPos, delta), tail) == TablesHold(f, tail)
    decreases f
  {
    hide DownHolds, ShiftDown;
    if f.Cons? {
      if f.head.typ == TRAK {
        DownShifts(f.head, TO_STBL, tail, insertPos, delta);
      }
      TraksHold(f.tail, tail, insertPos, delta);
    }
  }

  // ----- the append -----

  /** What an append leaves: the shifted moov, and its bytes from the header on with the new box behind. */
  lemma Appended(data: seq<byte>, moov: Tree, payload: seq<byte>, base: nat) returns (s: seq<byte>)
    requires IsMoov(data, moov) && !HasUdta(moov) && 8 + |payload| < 0x1_0000_0000
    requires PathFits(moov, [], 8 + |payload|)
    ensures var m, out := ShiftMoov(moov, base + Size(moov), 8 + |payload|), WithUdta(data, base, Atom(UDTA, payload));
            && IsMoov(s, m) && Longer(s, out, HdrLen(m.kind), payload)
            && HeaderIs(out, 0, Explicit(m.kind), |out|, MOOV)
  {
    hide IsMoov, Rewritten, WithUdta, Atom, ShiftTraks, FirstIndex, Size, EditDone, Find, FindChild, ReadBox, Longer;
    hide HeaderIs;
    var box := Atom(UDTA, payload);
    UdtaPlace(data, moov);
    WithUdtaIs(data, moov, base, box);
    s := EditAround(data, moov, [], Size(moov), Size(moov), box, base);
    var m := ShiftMoov(moov, base + Size(moov), 8 + |payload|);
    MoovSize(data, moov);
    MoovSize(s, m);
    ShiftedUdta(moov, base + Size(moov), 8 + |payload|);
    AppendedLonger(s, WithUdta(data, base, box), m, payload);
  }

  lemma AppendedLonger(s: seq<byte>, out: seq<byte>, m: Tree, payload: seq<byte>)
    requires IsMoov(s, m) && EditDone(s, out, m, [], |s|, |s|, Atom(UDTA, payload)) && 8 + |payload| < 0x1_0000_0000
    ensures Longer(s, out, HdrLen(m.kind), payload) && HeaderIs(out, 0, Explicit(m.kind), |out|, MOOV)
  {
    hide Same, Atom, ReadBox, Shaped, Parses, KindIs;
    AppendDone(s, out, m, payload);
    assert out[|s|..] == out[|s|..|s| + 8 + |payload|];
  }

  /** The chunk offsets a player reads after an append. */
  lemma AppendedOffsetsAre(data: seq<byte>, moov: Tree, payload: seq<byte>, base: nat)
    requires IsMoov(data, moov) && !HasUdta(moov) && 8 + |payload| < 0x1_0000_0000
    requires PathFits(moov, [], 8 + |payload|)
    ensures ChunkOffsets(WithUdta(data, base, Atom(UDTA, payload)))
         == LongTraks(ShiftTraks(moov.kids, base + Size(moov), 8 + |payload|), Atom(UDTA, payload))
  {
    hide IsMoov, WithUdta, Atom, ShiftTraks, Size, Longer, LongTraks, ReadFrom, ReadBox, PathFits;
    var m, out := ShiftMoov(moov, base + Size(moov), 8 + |payload|), WithUdta(data, base, Atom(UDTA, payload));
    var s := Appended(data, moov, payload, base);
    AppendedMoov(s, m);
    ReadLonger(s, out, HdrLen(m.kind), payload, HdrLen(m.kind), m.kids);
  }

  lemma AppendedMoov(s: seq<byte>, m: Tree)
    requires IsMoov(s, m)
    ensures ParsesAll(s, HdrLen(m.kind), m.kids) && ShapedAll(m.kids) && HdrLen(m.kind) + SizeAll(m.kids) == |s|
  {
    hide Parses;
    MoovParts(s, m);
  }

  lemma SameCount(es: seq<Entry>, ns: seq<Entry>, insertPos: int, delta: int)
    requires AllShifted(es, ns, insertPos, delta)
    ensures |ns| == |es|
  {
  }

  /** Where a table does not hold what it counts, a player reads more offsets than there were. */
  lemma MorePhantoms(data: seq<byte>, moov: Tree, payload: seq<byte>, base: nat)
    requires IsMoov(data, moov) && !HasUdta(moov) && 8 + |payload| < 0x1_0000_0000
    requires PathFits(moov, [], 8 + |payload|) && !TablesHold(moov.kids, Atom(UDTA, payload))
    ensures |ChunkOffsets(WithUdta(data, base, Atom(UDTA, payload)))| > |ChunkOffsets(data)|
  {
    hide IsMoov, WithUdta, Atom, ChunkOffsets, FirstIndex, TablesHold, PathFits, AllShifted, ShiftTraks, TreeOffsets;
    hide LongTraks, Size;
    var atom, ks := Atom(UDTA, payload), ShiftTraks(moov.kids, base + Size(moov), 8 + |payload|);
    OffsetsOf(data, moov);
    AppendedOffsetsAre(data, moov, payload, base);
    TraksMore(ks, atom);
    TraksHold(moov.kids, atom, base + Size(moov), 8 + |payload|);
    TraksShifted(moov.kids, base + Size(moov), 8 + |payload|);
    SameCount(TreeOffsets(moov.kids), TreeOffsets(ks), base + Size(moov), 8 + |payload|);
  }

  /** After new metadata, replaced or appended, a player reads the old chunk offsets, each shifted, exactly
      if there was a metadata box or every offset table of size field 0 holds all the entries it counts:
      otherwise bytes of the new box are read as further offsets. */
  lemma OffsetsShiftedIff(data: seq<byte>, moov: Tree, payload: seq<byte>, base: nat)
    requires IsMoov(data, moov) && 8 + |payload| < 0x1_0000_0000
    requires PathFits(moov, [], 8 + |payload| - (UdtaEnd(moov) - UdtaAt(moov)))
    ensures var out := WithUdta(data, base, Atom(UDTA, payload));
            AllShifted(ChunkOffsets(data), ChunkOffsets(out), base + UdtaAt(moov),
                       8 + |payload| - (UdtaEnd(moov) - UdtaAt(moov)))
            <==> HasUdta(moov) || TablesHold(moov.kids, Atom(UDTA, payload))
  {
    hide IsMoov, WithUdta, Atom, ChunkOffsets, FirstIndex, TablesHold, PathFits, AllShifted, ShiftTraks, TreeOffsets;
    hide LongTraks, UdtaTree, Size;
    var atom := Atom(UDTA, payload);
    OffsetsOf(data, moov);
    if HasUdta(moov) {
      UdtaParses(data, moov, payload, base);
      OffsetsOf(WithUdta(data, base, atom), UdtaTree(moov, payload, base));
    } else {
      var ks := ShiftTraks(moov.kids, base + Size(moov), 8 + |payload|);
      AppendedOffsetsAre(data, moov, payload, base);
      TraksMore(ks, atom);
      TraksHold(moov.kids, atom, base + Size(moov), 8 + |payload|);
      TraksShifted(moov.kids, base + Size(moov), 8 + |payload|);
      if !TablesHold(moov.kids, atom) {
        MorePhantoms(data, moov, payload, base);
        if AllShifted(TreeOffsets(moov.kids), LongTraks(ks, atom), base + Size(moov), 8 + |payload|) {
          SameCount(TreeOffsets(moov.kids), LongTraks(ks, atom), base + Size(moov), 8 + |payload|);
        }
      }
    }
  }

  /** The samples of a file survive new metadata, replaced or appended, exactly under that condition. */
  lemma UdtaKeepsSamplesIff(pre: seq<byte>, data: seq<byte>, post: seq<byte>, moov: Tree, payload: seq<byte>)
    requires IsMoov(data, moov) && 8 + |payload| < 0x1_0000_0000
    requires PathFits(moov, [], 8 + |payload| - (UdtaEnd(moov) - UdtaAt(moov)))
    requires ApartFrom(ChunkOffsets(data), |pre|, |data|) && RoomFor(ChunkOffsets(data), |pre| + |data|, 8 + |payload|)
    ensures var out := WithUdta(data, |pre|, Atom(UDTA, payload));
            SamplesKept(pre, data, out, post, ChunkOffsets(data), ChunkOffsets(out))
            <==> HasUdta(moov) || TablesHold(moov.kids, Atom(UDTA, payload))
  {
    hide IsMoov, WithUdta, Atom, ChunkOffsets, SamplesKept, ApartFrom, RoomFor, TablesHold, PathFits, AllShifted;
    hide HasUdta, UdtaAt, UdtaEnd;
    var out := WithUdta(data, |pre|, Atom(UDTA, payload));
    OffsetsShiftedIff(data, moov, payload, |pre|);
    if HasUdta(moov) || TablesHold(moov.kids, Atom(UDTA, payload)) {
      ShiftedKeep(pre, data, post, moov, payload);
    } else {
      AppendedAt(moov);
      MorePhantoms(data, moov, payload, |pre|);
      if SamplesKept(pre, data, out, post, ChunkOffsets(data), ChunkOffsets(out)) {
        KeptCount(pre, data, out, post, ChunkOffsets(data), ChunkOffsets(out));
      }
    }
  }

  lemma AppendedAt(moov: Tree)
    requires !HasUdta(moov)
    ensures UdtaAt(moov) == UdtaEnd(moov) == Size(moov)
  {
  }

  lemma ShiftedKeep(pre: seq<byte>, data: seq<byte>, post: seq<byte>, moov: Tree, payload: seq<byte>)
    requires IsMoov(data, moov)
    requires ApartFrom(ChunkOffsets(data), |pre|, |data|) && RoomFor(ChunkOffsets(data), |pre| + |data|, 8 + |payload|)
    requires var out := WithUdta(data, |pre|, Atom(UDTA, payload));
             AllShifted(ChunkOffsets(data), ChunkOffsets(out), |pre| + UdtaAt(moov),
                        8 + |payload| - (UdtaEnd(moov) - UdtaAt(moov)))
    ensures var out := WithUdta(data, |pre|, Atom(UDTA, payload));
            SamplesKept(pre, data, out, post, ChunkOffsets(data), ChunkOffsets(out))
  {
    hide IsMoov, WithUdta, Atom, ChunkOffsets, SamplesKept, ApartFrom, AllShifted, AllMove, HasUdta, UdtaAt, UdtaEnd;
    hide Size;
    var out, at, to := WithUdta(data, |pre|, Atom(UDTA, payload)), UdtaAt(moov), UdtaEnd(moov);
    UdtaPlace(data, moov);
    WithUdtaIs(data, moov, |pre|, Atom(UDTA, payload));
    ShiftedMoves(ChunkOffsets(data), ChunkOffsets(out), |pre|, at, |data|, 8 + |payload| - (to - at));
    MovedKeepsSamples(pre, data, out, post, ChunkOffsets(data), ChunkOffsets(out));
  }

  lemma KeptCount(pre: seq<byte>, before: seq<byte>, after: seq<byte>, post: seq<byte>, es: seq<Entry>, ns: seq<Entry>)
    requires SamplesKept(pre, before, after, post, es, ns)
    ensures |ns| == |es|
  {
  }
}
