/**
 What the chunk-offset shift does to the box tree: it rewrites the first stco and
 the first co64 table of every track and nothing else, and the offsets read from the
 new buffer are the shifted old ones.
 */
module Mp4Shift {
  import opened Bytes
  import opened Mp4Boxes
  import opened Mp4Tree

  // ----- boxes the walks look into -----

  predicate IsContainer(typ: FourCc) {
    typ == MOOV || typ == TRAK || typ == MDIA || typ == MINF || typ == STBL
  }

  predicate Walkable(typ: FourCc) {
    IsContainer(typ) || typ == STSD
  }

  /** ISO/IEC 14496-12: containers hold nothing but boxes, stsd counts its entries in 8 bytes
      first, the offset tables hold no boxes. */
  ghost predicate Shaped(t: Tree)
    decreases t
  {
    && (IsContainer(t.typ) ==> t.fixed == [])
    && (t.typ == STSD ==> |t.fixed| == 8)
    && (t.typ == STCO || t.typ == CO64 ==> t.kids == Nil)
    && ShapedAll(t.kids)
  }

  ghost predicate ShapedAll(f: Forest)
    decreases f
  {
    f.Cons? ==> Shaped(f.head) && ShapedAll(f.tail)
  }

  lemma {:induction false} ShapedKid(f: Forest, i: nat)
    requires ShapedAll(f) && i < Count(f)
    ensures Shaped(KidAt(f, i))
    decreases f
  {
    if i > 0 {
      ShapedKid(f.tail, i - 1);
    }
  }

  lemma KidsStart(t: Tree, pos: nat)
    requires Shaped(t) && Walkable(t.typ)
    ensures ChildStart(BoxOf(t, pos)) == KidsPos(t, pos)
    ensures BoxOf(t, pos).End() == KidsPos(t, pos) + SizeAll(t.kids)
  {
  }

  /** The walk for one child, seen from the tree. */
  lemma ChildFound(data: seq<byte>, pos: nat, t: Tree, typ: FourCc)
    requires Parses(data, pos, t) && Shaped(t) && Walkable(t.typ)
    ensures var i := FirstIndex(t.kids, typ);
            FindChild(data, ChildStart(BoxOf(t, pos)), BoxOf(t, pos).End(), typ)
            == if i < Count(t.kids) then Some(BoxOf(KidAt(t.kids, i), KidPos(t, pos, i))) else None
  {
    hide FindChild;
    KidsStart(t, pos);
    WalkFinds(data, KidsPos(t, pos), t.kids, typ);
  }

  /** What is known of the child found. */
  lemma KidFound(data: seq<byte>, pos: nat, t: Tree, i: nat)
    requires Parses(data, pos, t) && Shaped(t) && i < Count(t.kids)
    ensures Parses(data, KidPos(t, pos, i), KidAt(t.kids, i)) && Shaped(KidAt(t.kids, i))
    ensures KidPos(t, pos, i) + Size(KidAt(t.kids, i)) <= pos + Size(t) <= |data|
  {
    hide HeaderIs;
    KidParses(data, KidsPos(t, pos), t.kids, i);
    ShapedKid(t.kids, i);
    EndsAtEnd(data, pos, t);
  }

  /** A box without children is its header and its payload. */
  lemma LeafPayload(data: seq<byte>, pos: nat, t: Tree)
    requires Parses(data, pos, t) && t.kids == Nil
    ensures Size(t) == HdrLen(t.kind) + |t.fixed| && pos + Size(t) <= |data|
    ensures data[BoxOf(t, pos).Body()..BoxOf(t, pos).End()] == t.fixed
  {
    EndsAtEnd(data, pos, t);
  }

  /** The path that takes the first child of each type in turn. */
  function Find(t: Tree, types: seq<FourCc>): (r: Option<seq<nat>>)
    ensures r.Some? ==> |r.value| == |types| && ValidPath(t, r.value)
    decreases |types|
  {
    if types == [] then Some([]) else
    var i := FirstIndex(t.kids, types[0]);
    if i == Count(t.kids) then None else
    match Find(KidAt(t.kids, i), types[1..])
    case None => None
    case Some(path) => Some([i] + path)
  }

  /** Each type but the last is one the walk can look into. */
  ghost predicate WalkTypes(typ: FourCc, types: seq<FourCc>)
    decreases |types|
  {
    types != [] ==> Walkable(typ) && WalkTypes(types[0], types[1..])
  }

  lemma {:induction false} DescendFinds(data: seq<byte>, pos: nat, t: Tree, types: seq<FourCc>)
    requires Parses(data, pos, t) && Shaped(t) && WalkTypes(t.typ, types)
    ensures Descend(data, BoxOf(t, pos), types)
         == match Find(t, types)
            case None => None
            case Some(path) => Some(Chain(t, pos, path))
    decreases |types|
  {
    hide FindChild, Walkable, Parses, Shaped;
    if types != [] {
      ChildFound(data, pos, t, types[0]);
      var i := FirstIndex(t.kids, types[0]);
      if i < Count(t.kids) {
        KidFound(data, pos, t, i);
        DescendFinds(data, KidPos(t, pos, i), KidAt(t.kids, i), types[1..]);
      }
    }
  }

  // ----- changes in place -----

  /** Same length, and the same bytes outside [lo, hi). */
  ghost predicate Outside(data: seq<byte>, out: seq<byte>, lo: nat, hi: nat) {
    lo <= hi <= |data| && |out| == |data| && Same(data, 0, out, 0, lo) && Same(data, hi, out, hi, |data| - hi)
  }

  lemma OutsidePart(data: seq<byte>, out: seq<byte>, lo: nat, hi: nat, pos: nat, n: nat)
    requires Outside(data, out, lo, hi) && pos + n <= |data| && (pos + n <= lo || hi <= pos)
    ensures Same(data, pos, out, pos, n)
  {
    hide Same;
    if pos + n <= lo {
      SamePart(data, 0, out, 0, lo, pos, n);
    } else {
      SamePart(data, hi, out, hi, |data| - hi, pos - hi, n);
    }
  }

  lemma OutsideWider(data: seq<byte>, out: seq<byte>, lo: nat, hi: nat, lo': nat, hi': nat)
    requires Outside(data, out, lo, hi) && lo' <= lo && hi <= hi' <= |data|
    ensures Outside(data, out, lo', hi')
  {
    OutsidePart(data, out, lo, hi, 0, lo');
    OutsidePart(data, out, lo, hi, hi', |data| - hi');
  }

  lemma OutsideTwice(data: seq<byte>, mid: seq<byte>, out: seq<byte>, lo: nat, hi: nat)
    requires Outside(data, mid, lo, hi) && Outside(mid, out, lo, hi)
    ensures Outside(data, out, lo, hi)
  {
  }

  lemma OverwriteOutside(data: seq<byte>, pos: nat, bytes: seq<byte>)
    requires pos + |bytes| <= |data|
    ensures Outside(data, Overwrite(data, pos, bytes), pos, pos + |bytes|)
  {
  }

  /** A box without children whose payload changes. */
  lemma LeafChanged(data: seq<byte>, out: seq<byte>, pos: nat, t: Tree, fixed: seq<byte>)
    requires Parses(data, pos, t) && |fixed| == |t.fixed|
    requires Outside(data, out, pos + HdrLen(t.kind), KidsPos(t, pos)) && KidsPos(t, pos) <= |out|
    requires out[pos + HdrLen(t.kind)..KidsPos(t, pos)] == fixed
    ensures Parses(out, pos, t.(fixed := fixed))
  {
    hide HeaderIs, Same;
    var h := HdrLen(t.kind);
    EndsAtEnd(data, pos, t);
    OutsidePart(data, out, pos + h, KidsPos(t, pos), pos, h);
    HeaderMoved(data, pos, out, pos, t.kind, Size(t), t.typ);
    OutsidePart(data, out, pos + h, KidsPos(t, pos), KidsPos(t, pos), SizeAll(t.kids));
    MovedAll(data, KidsPos(t, pos), out, KidsPos(t, pos), t.kids);
  }

  /** A box in which one child changes without changing its size. */
  lemma KidChanged(data: seq<byte>, out: seq<byte>, pos: nat, t: Tree, i: nat, kid: Tree)
    requires Parses(data, pos, t) && i < Count(t.kids) && Size(kid) == Size(KidAt(t.kids, i))
    requires Outside(data, out, KidPos(t, pos, i), KidPos(t, pos, i) + Size(kid))
    requires Parses(out, KidPos(t, pos, i), kid)
    ensures Parses(out, pos, t.(kids := ReplaceAt(t.kids, i, kid)))
    ensures Outside(data, out, pos, pos + Size(t))
  {
    hide HeaderIs, Same;
    var h, kpos, n := HdrLen(t.kind), KidPos(t, pos, i), Size(kid);
    EndsAtEnd(data, pos, t);
    OutsidePart(data, out, kpos, kpos + n, pos, h);
    HeaderMoved(data, pos, out, pos, t.kind, Size(t), t.typ);
    OutsidePart(data, out, kpos, kpos + n, pos + h, |t.fixed| + Before(t.kids, i));
    OutsidePart(data, out, kpos, kpos + n, kpos + n, SizeAll(t.kids) - Before(t.kids, i) - n);
    LevelParses(data, out, pos, t, i, kid, 0, false);
    OutsideWider(data, out, kpos, kpos + n, pos, pos + Size(t));
  }

  // ----- the shift on trees -----

  function ShiftFirst(t: Tree, typ: FourCc, width: nat, insertPos: int, delta: int): (r: Tree)
    requires width > 0
    ensures r.typ == t.typ
  {
    var i := FirstIndex(t.kids, typ);
    if i == Count(t.kids) then t
    else
      var leaf := KidAt(t.kids, i);
      t.(kids := ReplaceAt(t.kids, i, leaf.(fixed := ShiftTable(leaf.fixed, width, insertPos, delta))))
  }

  function ShiftDown(t: Tree, types: seq<FourCc>, insertPos: int, delta: int): (r: Tree)
    ensures r.typ == t.typ
    decreases |types|
  {
    if types == [] then ShiftFirst(ShiftFirst(t, STCO, 4, insertPos, delta), CO64, 8, insertPos, delta) else
    var i := FirstIndex(t.kids, types[0]);
    if i == Count(t.kids) then t
    else t.(kids := ReplaceAt(t.kids, i, ShiftDown(KidAt(t.kids, i), types[1..], insertPos, delta)))
  }

  function ShiftTraks(f: Forest, insertPos: int, delta: int): Forest {
    match f
    case Nil => Nil
    case Cons(h, rest) =>
      Cons(if h.typ == TRAK then ShiftDown(h, TO_STBL, insertPos, delta) else h, ShiftTraks(rest, insertPos, delta))
  }

  function ShiftMoov(moov: Tree, insertPos: int, delta: int): Tree {
    moov.(kids := ShiftTraks(moov.kids, insertPos, delta))
  }

  lemma ShiftFirstShape(t: Tree, typ: FourCc, width: nat, insertPos: int, delta: int)
    requires width > 0
    ensures SameShape(t, ShiftFirst(t, typ, width, insertPos, delta))
  {
    ShapeIsReflexive(t);
    var i := FirstIndex(t.kids, typ);
    if i < Count(t.kids) {
      var leaf := KidAt(t.kids, i);
      ShapeIsReflexiveAll(leaf.kids);
      ShapeReplaced(t.kids, i, leaf.(fixed := ShiftTable(leaf.fixed, width, insertPos, delta)));
    }
  }

  lemma {:induction false} ShiftDownShape(t: Tree, types: seq<FourCc>, insertPos: int, delta: int)
    ensures SameShape(t, ShiftDown(t, types, insertPos, delta))
    decreases |types|
  {
    hide ShiftFirst;
    if types == [] {
      var u := ShiftFirst(t, STCO, 4, insertPos, delta);
      ShiftFirstShape(t, STCO, 4, insertPos, delta);
      ShiftFirstShape(u, CO64, 8, insertPos, delta);
      ShapeTransitive(t, u, ShiftFirst(u, CO64, 8, insertPos, delta));
    } else {
      ShapeIsReflexive(t);
      var i := FirstIndex(t.kids, types[0]);
      if i < Count(t.kids) {
        ShiftDownShape(KidAt(t.kids, i), types[1..], insertPos, delta);
        ShapeReplaced(t.kids, i, ShiftDown(KidAt(t.kids, i), types[1..], insertPos, delta));
      }
    }
  }

  lemma {:induction false} ShiftTraksShape(f: Forest, insertPos: int, delta: int)
    ensures SameShapeAll(f, ShiftTraks(f, insertPos, delta))
    decreases f
  {
    hide ShiftDown;
    if f.Cons? {
      ShapeIsReflexive(f.head);
      ShiftDownShape(f.head, TO_STBL, insertPos, delta);
      ShiftTraksShape(f.tail, insertPos, delta);
    }
  }

  // ----- the byte-level shift is the shift on trees -----

  lemma ShiftNamedParses(data: seq<byte>, pos: nat, t: Tree, typ: FourCc, width: nat, insertPos: int, delta: int)
    requires Parses(data, pos, t) && Shaped(t) && t.typ == STBL && width > 0 && (typ == STCO || typ == CO64)
    ensures var out := ShiftNamed(data, BoxOf(t, pos), typ, width, insertPos, delta);
            Parses(out, pos, ShiftFirst(t, typ, width, insertPos, delta)) && Outside(data, out, pos, pos + Size(t))
  {
    hide FindChild, Parses, Outside, ShiftTable;
    EndsAtEnd(data, pos, t);
    ChildFound(data, pos, t, typ);
    var i := FirstIndex(t.kids, typ);
    if i < Count(t.kids) {
      KidFound(data, pos, t, i);
      var leaf, kpos := KidAt(t.kids, i), KidPos(t, pos, i);
      var fixed := ShiftTable(leaf.fixed, width, insertPos, delta);
      LeafPayload(data, kpos, leaf);
      LeafOverwritten(data, kpos, leaf, fixed);
      KidChanged(data, Overwrite(data, kpos + HdrLen(leaf.kind), fixed), pos, t, i, leaf.(fixed := fixed));
    } else {
      NothingChanged(data, pos, pos + Size(t));
    }
  }

  lemma LeafOverwritten(data: seq<byte>, pos: nat, t: Tree, fixed: seq<byte>)
    requires Parses(data, pos, t) && t.kids == Nil && |fixed| == |t.fixed| && pos + Size(t) <= |data|
    ensures var out := Overwrite(data, pos + HdrLen(t.kind), fixed);
            Parses(out, pos, t.(fixed := fixed)) && Outside(data, out, pos, pos + Size(t))
  {
    hide Parses, Outside;
    var lo := pos + HdrLen(t.kind);
    OverwriteOutside(data, lo, fixed);
    LeafChanged(data, Overwrite(data, lo, fixed), pos, t, fixed);
    OutsideWider(data, Overwrite(data, lo, fixed), lo, lo + |fixed|, pos, pos + Size(t));
  }

  lemma NothingChanged(data: seq<byte>, lo: nat, hi: nat)
    requires lo <= hi <= |data|
    ensures Outside(data, data, lo, hi)
  {
  }

  lemma {:induction false} ShapedSame(t: Tree, u: Tree)
    requires SameShape(t, u) && Shaped(t)
    ensures Shaped(u)
    decreases t
  {
    ShapedSameAll(t.kids, u.kids);
  }

  lemma {:induction false} ShapedSameAll(f: Forest, g: Forest)
    requires SameShapeAll(f, g) && ShapedAll(f)
    ensures ShapedAll(g)
    decreases f
  {
    if f.Cons? {
      ShapedSame(f.head, g.head);
      ShapedSameAll(f.tail, g.tail);
    }
  }

  /** Both tables of a sample table. */
  function ShiftTables(data: seq<byte>, stbl: Box, insertPos: int, delta: int): (r: seq<byte>)
    ensures |r| == |data|
  {
    ShiftNamed(ShiftNamed(data, stbl, STCO, 4, insertPos, delta), stbl, CO64, 8, insertPos, delta)
  }

  lemma ShiftTablesParses(data: seq<byte>, pos: nat, t: Tree, insertPos: int, delta: int)
    requires Parses(data, pos, t) && Shaped(t) && t.typ == STBL
    ensures var out := ShiftTables(data, BoxOf(t, pos), insertPos, delta);
            Parses(out, pos, ShiftDown(t, [], insertPos, delta)) && Outside(data, out, pos, pos + Size(t))
  {
    hide ShiftNamed, ShiftFirst, Outside, Parses;
    var mid := ShiftNamed(data, BoxOf(t, pos), STCO, 4, insertPos, delta);
    var u := ShiftFirst(t, STCO, 4, insertPos, delta);
    ShiftNamedParses(data, pos, t, STCO, 4, insertPos, delta);
    ShiftFirstShape(t, STCO, 4, insertPos, delta);
    ShapedSame(t, u);
    ShapeKeepsSize(t, u);
    ShiftNamedParses(mid, pos, u, CO64, 8, insertPos, delta);
    OutsideTwice(data, mid, ShiftNamed(mid, BoxOf(t, pos), CO64, 8, insertPos, delta), pos, pos + Size(t));
  }

  /** Descend and shift, as one function of the box the descent starts at. */
  function ShiftAt(data: seq<byte>, b: Box, types: seq<FourCc>, insertPos: int, delta: int): (r: seq<byte>)
    ensures |r| == |data|
  {
    match Descend(data, b, types)
    case None => data
    case Some(chain) => ShiftTables(data, chain[|types|], insertPos, delta)
  }

  lemma {:induction false} ShiftAtParses(data: seq<byte>, pos: nat, t: Tree, types: seq<FourCc>, insertPos: int,
                                         delta: int)
    requires Parses(data, pos, t) && Shaped(t) && WalkTypes(t.typ, types)
    requires (if types == [] then t.typ else types[|types| - 1]) == STBL
    ensures var out := ShiftAt(data, BoxOf(t, pos), types, insertPos, delta);
            Parses(out, pos, ShiftDown(t, types, insertPos, delta)) && Outside(data, out, pos, pos + Size(t))
    decreases |types|
  {
    hide FindChild, Walkable, ShiftTables, Outside, Parses, Shaped;
    EndsAtEnd(data, pos, t);
    if types == [] {
      ShiftTablesParses(data, pos, t, insertPos, delta);
    } else {
      ChildFound(data, pos, t, types[0]);
      var i := FirstIndex(t.kids, types[0]);
      if i < Count(t.kids) {
        var kid, kpos := KidAt(t.kids, i), KidPos(t, pos, i);
        KidFound(data, pos, t, i);
        ShiftAtParses(data, kpos, kid, types[1..], insertPos, delta);
        ShiftDownShape(kid, types[1..], insertPos, delta);
        ShapeKeepsSize(kid, ShiftDown(kid, types[1..], insertPos, delta));
        ShiftAtStep(data, BoxOf(t, pos), types, BoxOf(kid, kpos), insertPos, delta);
        KidChanged(data, ShiftAt(data, BoxOf(kid, kpos), types[1..], insertPos, delta), pos, t, i,
                   ShiftDown(kid, types[1..], insertPos, delta));
      } else {
        NothingChanged(data, pos, pos + Size(t));
      }
    }
  }

  lemma ShiftAtStep(data: seq<byte>, b: Box, types: seq<FourCc>, c: Box, insertPos: int, delta: int)
    requires types != [] && FindChild(data, ChildStart(b), b.End(), types[0]) == Some(c)
    ensures ShiftAt(data, b, types, insertPos, delta) == ShiftAt(data, c, types[1..], insertPos, delta)
  {
    hide ShiftTables;
    if Descend(data, c, types[1..]).Some? {
      var chain := Descend(data, c, types[1..]).value;
      assert ([b] + chain)[|types|] == chain[|types| - 1];
    }
  }

  lemma TypesWalkable()
    ensures WalkTypes(TRAK, TO_STBL)
  {
    assert TO_STBL[1..] == [MINF, STBL];
    assert [MINF, STBL][1..] == [STBL];
    assert [STBL][1..] == [];
    assert WalkTypes(STBL, []) && WalkTypes(MINF, [STBL]) && WalkTypes(MDIA, [MINF, STBL]);
  }

  lemma ShiftTrakParses(data: seq<byte>, pos: nat, t: Tree, insertPos: int, delta: int)
    requires Parses(data, pos, t) && Shaped(t) && t.typ == TRAK
    ensures var out := ShiftTrak(data, BoxOf(t, pos), insertPos, delta);
            Parses(out, pos, ShiftDown(t, TO_STBL, insertPos, delta)) && Outside(data, out, pos, pos + Size(t))
  {
    hide Parses, Outside, ShiftDown, Descend, ShiftNamed;
    TypesWalkable();
    ShiftAtParses(data, pos, t, TO_STBL, insertPos, delta);
    assert ShiftTrak(data, BoxOf(t, pos), insertPos, delta) == ShiftAt(data, BoxOf(t, pos), TO_STBL, insertPos, delta);
  }

  lemma {:induction false} ShiftFromParses(data: seq<byte>, pos: nat, f: Forest, insertPos: int, delta: int)
    requires ParsesAll(data, pos, f) && ShapedAll(f) && pos + SizeAll(f) <= |data|
    ensures var out := ShiftFrom(data, pos, pos + SizeAll(f), insertPos, delta);
            ParsesAll(out, pos, ShiftTraks(f, insertPos, delta)) && Outside(data, out, pos, pos + SizeAll(f))
    decreases f
  {
    hide ReadBox, ShiftTrak, ShiftDown, Outside, Parses, Shaped;
    if f.Nil? {
      NothingChanged(data, pos, pos);
    } else {
      var t, next := f.head, pos + Size(f.head);
      var u := if t.typ == TRAK then ShiftDown(t, TO_STBL, insertPos, delta) else t;
      var mid := if t.typ == TRAK then ShiftTrak(data, BoxOf(t, pos), insertPos, delta) else data;
      HeadShifted(data, mid, pos, t, u, insertPos, delta);
      BoxRead(data, pos, t);
      OutsidePart(data, mid, pos, next, next, SizeAll(f.tail));
      MovedAll(data, next, mid, next, f.tail);
      ShiftFromParses(mid, next, f.tail, insertPos, delta);
      HeadKept(data, mid, ShiftFrom(mid, next, next + SizeAll(f.tail), insertPos, delta), pos, u, SizeAll(f.tail));
    }
  }

  lemma BoxRead(data: seq<byte>, pos: nat, t: Tree)
    requires Parses(data, pos, t)
    ensures ReadBox(data, pos) == Some(BoxOf(t, pos))
  {
  }

  /** A later change leaves the head as it is. */
  lemma HeadKept(data: seq<byte>, mid: seq<byte>, out: seq<byte>, pos: nat, u: Tree, n: nat)
    requires Parses(mid, pos, u) && Outside(data, mid, pos, pos + Size(u))
    requires Outside(mid, out, pos + Size(u), pos + Size(u) + n)
    ensures Parses(out, pos, u) && Outside(data, out, pos, pos + Size(u) + n)
  {
    hide Parses, Same;
    var next := pos + Size(u);
    OutsidePart(mid, out, next, next + n, pos, Size(u));
    Moved(mid, pos, out, pos, u);
    OutsideWider(data, mid, pos, next, pos, next + n);
    OutsideWider(mid, out, next, next + n, pos, next + n);
    OutsideTwice(data, mid, out, pos, next + n);
  }

  lemma HeadShifted(data: seq<byte>, mid: seq<byte>, pos: nat, t: Tree, u: Tree, insertPos: int, delta: int)
    requires Parses(data, pos, t) && Shaped(t)
    requires u == if t.typ == TRAK then ShiftDown(t, TO_STBL, insertPos, delta) else t
    requires mid == if t.typ == TRAK then ShiftTrak(data, BoxOf(t, pos), insertPos, delta) else data
    ensures Parses(mid, pos, u) && Size(u) == Size(t) && Outside(data, mid, pos, pos + Size(t))
  {
    hide ShiftTrak, ShiftDown, Outside;
    EndsAtEnd(data, pos, t);
    if t.typ == TRAK {
      ShiftTrakParses(data, pos, t, insertPos, delta);
      ShiftDownShape(t, TO_STBL, insertPos, delta);
      ShapeKeepsSize(t, u);
    } else {
      NothingChanged(data, pos, pos + Size(t));
    }
  }

  /** The shift of a whole moov: only bytes of its children change, and it parses as the shifted tree. */
  lemma ShiftMoovParses(data: seq<byte>, pos: nat, moov: Tree, insertPos: int, delta: int)
    requires Parses(data, pos, moov) && Shaped(moov) && IsContainer(moov.typ)
    ensures var out := ShiftFrom(data, BoxOf(moov, pos).Body(), BoxOf(moov, pos).End(), insertPos, delta);
            && Parses(out, pos, ShiftMoov(moov, insertPos, delta))
            && Outside(data, out, pos, pos + Size(moov))
  {
    hide ReadBox, Same, HasToEnd;
    var kpos := KidsPos(moov, pos);
    EndsAtEnd(data, pos, moov);
    ShiftFromParses(data, kpos, moov.kids, insertPos, delta);
    ShiftTraksShape(moov.kids, insertPos, delta);
    ShapeKeepsSizeAll(moov.kids, ShiftTraks(moov.kids, insertPos, delta));
    var out := ShiftFrom(data, kpos, kpos + SizeAll(moov.kids), insertPos, delta);
    OutsidePart(data, out, kpos, kpos + SizeAll(moov.kids), pos, HdrLen(moov.kind));
    HeaderMoved(data, pos, out, pos, moov.kind, Size(moov), moov.typ);
    OutsideWider(data, out, kpos, kpos + SizeAll(moov.kids), pos, pos + Size(moov));
  }

  // ----- the offsets themselves -----

  datatype Entry = Entry(width: nat, value: nat)

  function Shifted(e: Entry, insertPos: int, delta: int): Entry
    requires e.value < Pow256(e.width)
  {
    e.(value := NewOffset(e.value, e.width, insertPos, delta))
  }

  predicate InField(e: Entry) {
    e.value < Pow256(e.width)
  }

  function AsEntries(width: nat, vs: seq<nat>): (es: seq<Entry>)
    ensures |es| == |vs|
    ensures forall i :: 0 <= i < |es| ==> es[i] == Entry(width, vs[i])
  {
    seq(|vs|, i requires 0 <= i < |vs| => Entry(width, vs[i]))
  }

  /** The chunk offsets of one table of a sample table, read from the buffer. */
  function ReadNamed(data: seq<byte>, stbl: Box, typ: FourCc, width: nat): seq<Entry>
    requires width > 0
  {
    match FindChild(data, stbl.Body(), stbl.End(), typ)
    case None => []
    case Some(b) => AsEntries(width, TableOffsets(data[b.Body()..b.End()], width))
  }

  function ReadTrak(data: seq<byte>, trak: Box): seq<Entry> {
    match Descend(data, trak, TO_STBL)
    case None => []
    case Some(chain) => ReadNamed(data, chain[3], STCO, 4) + ReadNamed(data, chain[3], CO64, 8)
  }

  function ReadFrom(data: seq<byte>, pos: int, end: int): seq<Entry>
    decreases end - pos
  {
    if pos + 8 > end then [] else
    match ReadBox(data, pos)
    case None => []
    case Some(b) => (if b.typ == TRAK then ReadTrak(data, b) else []) + ReadFrom(data, b.End(), end)
  }

  /** All chunk offsets a player finds in the moov buffer, track by track. */
  function ChunkOffsets(data: seq<byte>): seq<Entry> {
    match FindChild(data, 0, |data|, MOOV)
    case None => []
    case Some(moov) => ReadFrom(data, moov.Body(), moov.End())
  }

  function TreeNamed(t: Tree, typ: FourCc, width: nat): seq<Entry>
    requires width > 0
  {
    var i := FirstIndex(t.kids, typ);
    if i == Count(t.kids) then [] else AsEntries(width, TableOffsets(KidAt(t.kids, i).fixed, width))
  }

  function TreeDown(t: Tree, types: seq<FourCc>): seq<Entry>
    decreases |types|
  {
    if types == [] then TreeNamed(t, STCO, 4) + TreeNamed(t, CO64, 8) else
    var i := FirstIndex(t.kids, types[0]);
    if i == Count(t.kids) then [] else TreeDown(KidAt(t.kids, i), types[1..])
  }

  function TreeOffsets(f: Forest): seq<Entry> {
    match f
    case Nil => []
    case Cons(h, rest) => (if h.typ == TRAK then TreeDown(h, TO_STBL) else []) + TreeOffsets(rest)
  }

  lemma ReadNamedIs(data: seq<byte>, pos: nat, t: Tree, typ: FourCc, width: nat)
    requires Parses(data, pos, t) && Shaped(t) && t.typ == STBL && width > 0 && (typ == STCO || typ == CO64)
    ensures ReadNamed(data, BoxOf(t, pos), typ, width) == TreeNamed(t, typ, width)
  {
    hide FindChild, Parses, TableOffsets;
    ChildFound(data, pos, t, typ);
    var i := FirstIndex(t.kids, typ);
    if i < Count(t.kids) {
      KidFound(data, pos, t, i);
      LeafPayload(data, KidPos(t, pos, i), KidAt(t.kids, i));
    }
  }

  lemma {:induction false} ReadDownIs(data: seq<byte>, pos: nat, t: Tree, types: seq<FourCc>)
    requires Parses(data, pos, t) && Shaped(t) && WalkTypes(t.typ, types)
    requires (if types == [] then t.typ else types[|types| - 1]) == STBL
    ensures TreeDown(t, types)
         == match Descend(data, BoxOf(t, pos), types)
            case None => []
            case Some(chain) => ReadNamed(data, chain[|types|], STCO, 4) + ReadNamed(data, chain[|types|], CO64, 8)
    decreases |types|
  {
    hide FindChild, Walkable, ReadNamed, TreeNamed, Parses, Shaped;
    if types == [] {
      ReadNamedIs(data, pos, t, STCO, 4);
      ReadNamedIs(data, pos, t, CO64, 8);
    } else {
      ChildFound(data, pos, t, types[0]);
      var i := FirstIndex(t.kids, types[0]);
      if i < Count(t.kids) {
        KidFound(data, pos, t, i);
        ReadDownIs(data, KidPos(t, pos, i), KidAt(t.kids, i), types[1..]);
      }
    }
  }

  lemma {:induction false} ReadFromIs(data: seq<byte>, pos: nat, f: Forest)
    requires ParsesAll(data, pos, f) && ShapedAll(f)
    ensures ReadFrom(data, pos, pos + SizeAll(f)) == TreeOffsets(f)
    decreases f
  {
    hide ReadBox, Descend, TreeDown, ReadNamed;
    if f.Cons? {
      if f.head.typ == TRAK {
        TypesWalkable();
        ReadDownIs(data, pos, f.head, TO_STBL);
      }
      ReadFromIs(data, pos + Size(f.head), f.tail);
    }
  }

  lemma MoovParts(data: seq<byte>, moov: Tree)
    requires Parses(data, 0, moov) && Shaped(moov) && moov.typ == MOOV
    ensures ParsesAll(data, KidsPos(moov, 0), moov.kids) && ShapedAll(moov.kids) && Size(moov) <= |data|
    ensures BoxOf(moov, 0).Body() == KidsPos(moov, 0)
    ensures BoxOf(moov, 0).End() == KidsPos(moov, 0) + SizeAll(moov.kids)
  {
    hide HeaderIs;
    EndsAtEnd(data, 0, moov);
  }

  /** Reading the offsets of a buffer that is one moov gives the offsets of its tree. */
  lemma ChunkOffsetsIs(data: seq<byte>, moov: Tree)
    requires Parses(data, 0, moov) && Shaped(moov) && moov.typ == MOOV
    ensures FindChild(data, 0, |data|, MOOV) == Some(BoxOf(moov, 0))
    ensures ChunkOffsets(data) == TreeOffsets(moov.kids)
  {
    hide ReadBox, ReadFrom, Parses, TreeOffsets;
    BoxRead(data, 0, moov);
    MoovParts(data, moov);
    ReadFromIs(data, KidsPos(moov, 0), moov.kids);
  }

  // ----- the offsets of the shifted tree -----

  /** Every entry shifted. */
  ghost predicate AllShifted(es: seq<Entry>, ns: seq<Entry>, insertPos: int, delta: int) {
    && |ns| == |es|
    && forall i :: 0 <= i < |es| ==> InField(es[i]) && ns[i] == Shifted(es[i], insertPos, delta)
  }

  lemma {:induction false} OffsetsShifted(bytes: seq<byte>, width: nat, count: nat, insertPos: int, delta: int)
    requires width > 0
    ensures AllShifted(AsEntries(width, Offsets(bytes, width, count)),
                       AsEntries(width, Offsets(ShiftOffsets(bytes, width, count, insertPos, delta), width, count)),
                       insertPos, delta)
    decreases count
  {
    hide NewOffset;
    if count > 0 && |bytes| >= width {
      var v := FromBE(bytes[..width]);
      var n := NewOffset(v, width, insertPos, delta);
      var rest := ShiftOffsets(bytes[width..], width, count - 1, insertPos, delta);
      FromToBE(n, width);
      assert (ToBE(n, width) + rest)[..width] == ToBE(n, width) && (ToBE(n, width) + rest)[width..] == rest;
      OffsetsShifted(bytes[width..], width, count - 1, insertPos, delta);
    }
  }

  lemma TableShifted(payload: seq<byte>, width: nat, insertPos: int, delta: int)
    requires width > 0
    ensures AllShifted(AsEntries(width, TableOffsets(payload, width)),
                       AsEntries(width, TableOffsets(ShiftTable(payload, width, insertPos, delta), width)),
                       insertPos, delta)
  {
    hide Offsets, ShiftOffsets, AllShifted;
    var out := ShiftTable(payload, width, insertPos, delta);
    if |payload| >= 8 {
      assert out[..8] == payload[..8];
      SliceOfSlice(out, 0, 8, 4, 8);
      SliceOfSlice(payload, 0, 8, 4, 8);
      OffsetsShifted(payload[8..], width, FromBE(payload[4..8]), insertPos, delta);
    } else {
      NoneShifted(width, insertPos, delta);
    }
  }

  lemma NoneShifted(width: nat, insertPos: int, delta: int)
    ensures AllShifted(AsEntries(width, []), AsEntries(width, []), insertPos, delta)
    ensures AllShifted([], [], insertPos, delta)
  {
  }

  lemma ShiftedAppend(a: seq<Entry>, b: seq<Entry>, c: seq<Entry>, d: seq<Entry>, insertPos: int, delta: int)
    requires AllShifted(a, b, insertPos, delta) && AllShifted(c, d, insertPos, delta)
    ensures AllShifted(a + c, b + d, insertPos, delta)
  {
  }

  lemma NamedShifted(t: Tree, typ: FourCc, width: nat, insertPos: int, delta: int, other: FourCc)
    requires width > 0 && other != typ
    ensures AllShifted(TreeNamed(t, typ, width), TreeNamed(ShiftFirst(t, typ, width, insertPos, delta), typ, width),
                       insertPos, delta)
    ensures forall w: nat :: w > 0 ==>
              TreeNamed(ShiftFirst(t, typ, width, insertPos, delta), other, w) == TreeNamed(t, other, w)
  {
    hide TableOffsets, ShiftTable, AllShifted;
    var i := FirstIndex(t.kids, typ);
    if i < Count(t.kids) {
      var leaf := KidAt(t.kids, i);
      var u := leaf.(fixed := ShiftTable(leaf.fixed, width, insertPos, delta));
      TableShifted(leaf.fixed, width, insertPos, delta);
      ReplaceAtOther(t.kids, i, u, i, typ);
      ReplaceAtOther(t.kids, i, u, FirstIndex(t.kids, other), other);
    } else {
      NoneShifted(width, insertPos, delta);
    }
  }

  lemma TablesShifted(t: Tree, insertPos: int, delta: int)
    ensures AllShifted(TreeDown(t, []), TreeDown(ShiftDown(t, [], insertPos, delta), []), insertPos, delta)
  {
    hide TreeNamed, ShiftFirst, AllShifted;
    var u := ShiftFirst(t, STCO, 4, insertPos, delta);
    var v := ShiftFirst(u, CO64, 8, insertPos, delta);
    NamedShifted(t, STCO, 4, insertPos, delta, CO64);
    NamedShifted(u, CO64, 8, insertPos, delta, STCO);
    ShiftedAppend(TreeNamed(t, STCO, 4), TreeNamed(v, STCO, 4), TreeNamed(t, CO64, 8), TreeNamed(v, CO64, 8),
                  insertPos, delta);
  }

  lemma {:induction false} DownShifted(t: Tree, types: seq<FourCc>, insertPos: int, delta: int)
    ensures AllShifted(TreeDown(t, types), TreeDown(ShiftDown(t, types, insertPos, delta), types), insertPos, delta)
    decreases |types|
  {
    hide TreeNamed, ShiftFirst, AllShifted;
    if types == [] {
      TablesShifted(t, insertPos, delta);
    } else {
      var i := FirstIndex(t.kids, types[0]);
      if i < Count(t.kids) {
        var kid := KidAt(t.kids, i);
        DownShifted(kid, types[1..], insertPos, delta);
        ReplaceAtOther(t.kids, i, ShiftDown(kid, types[1..], insertPos, delta), i, types[0]);
      } else {
        NoneShifted(4, insertPos, delta);
      }
    }
  }

  /** Shifting the tree shifts every offset in it, and none is lost or added. */
  lemma {:induction false} TraksShifted(f: Forest, insertPos: int, delta: int)
    ensures AllShifted(TreeOffsets(f), TreeOffsets(ShiftTraks(f, insertPos, delta)), insertPos, delta)
    decreases f
  {
    hide TreeDown, ShiftDown, AllShifted;
    NoneShifted(4, insertPos, delta);
    if f.Cons? {
      var h := ShiftTraks(f, insertPos, delta).head;
      if f.head.typ == TRAK {
        DownShifted(f.head, TO_STBL, insertPos, delta);
      }
      TraksShifted(f.tail, insertPos, delta);
      ShiftedAppend(if f.head.typ == TRAK then TreeDown(f.head, TO_STBL) else [],
                    if f.head.typ == TRAK then TreeDown(h, TO_STBL) else [],
                    TreeOffsets(f.tail), TreeOffsets(ShiftTraks(f.tail, insertPos, delta)), insertPos, delta);
    }
  }
}
