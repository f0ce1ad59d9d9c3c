/**
 The edits of a moov seen from its box tree: every edited buffer parses as the tree one
 expects, and every chunk offset is shifted with the bytes it points at.
 */
module Mp4Surgery {
  import opened Bytes
  import opened Mp4Boxes
  import opened Mp4Edits
  import opened Mp4Tree
  import opened Mp4Shift
  import opened Mp4Splice

  // ----- paths through trees of the same shape -----

  lemma {:induction false} ShapePath(t: Tree, u: Tree, pos: nat, path: seq<nat>, delta: int)
    requires SameShape(t, u) && ValidPath(t, path)
    ensures ValidPath(u, path) && Chain(t, pos, path) == Chain(u, pos, path)
    ensures SubPos(t, pos, path) == SubPos(u, pos, path) && SameShape(Sub(t, path), Sub(u, path))
    ensures PathFits(t, path, delta) == PathFits(u, path, delta)
    decreases |path|
  {
    hide Size, SizeFits, SameShapeAll, Before, Count, KidAt;
    ShapeKeepsSize(t, u);
    if path != [] {
      ShapeKids(t.kids, u.kids, path[0], 0);
      ShapePath(KidAt(t.kids, path[0]), KidAt(u.kids, path[0]), KidPos(t, pos, path[0]), path[1..], delta);
    }
  }

  lemma {:induction false} ShapeFind(t: Tree, u: Tree, types: seq<FourCc>)
    requires SameShape(t, u)
    ensures Find(t, types) == Find(u, types)
    decreases |types|
  {
    if types != [] {
      var i := FirstIndex(t.kids, types[0]);
      ShapeKids(t.kids, u.kids, i, types[0]);
      if i < Count(t.kids) {
        ShapeFind(KidAt(t.kids, i), KidAt(u.kids, i), types[1..]);
      }
    }
  }

  lemma {:induction false} ReplaceFound(t: Tree, path: seq<nat>, u: Tree, grown: bool, types: seq<FourCc>)
    requires Find(t, types) == Some(path) && u.typ == Sub(t, path).typ
    ensures Replace(t, path, u, grown).typ == t.typ
    ensures Find(Replace(t, path, u, grown), types) == Some(path)
    decreases |path|
  {
    if path != [] {
      var i := path[0];
      var kid := KidAt(t.kids, i);
      ReplaceFound(kid, path[1..], u, grown, types[1..]);
      ReplaceAtOther(t.kids, i, Replace(kid, path[1..], u, grown), i, types[0]);
    }
  }

  lemma {:induction false} ReplacedSub(t: Tree, path: seq<nat>, u: Tree, grown: bool, pos: nat)
    requires ValidPath(t, path) && u.typ == Sub(t, path).typ
    ensures var r := Replace(t, path, u, grown);
            ValidPath(r, path) && Sub(r, path) == u && SubPos(r, pos, path) == SubPos(t, pos, path) && r.typ == t.typ
    decreases |path|
  {
    if path != [] {
      var i := path[0];
      var kid := KidAt(t.kids, i);
      ReplacedSub(kid, path[1..], u, grown, KidPos(t, pos, i));
      ReplaceAtOther(t.kids, i, Replace(kid, path[1..], u, grown), i, t.typ);
    }
  }

  lemma {:induction false} ReplacedShape(t: Tree, path: seq<nat>, u: Tree)
    requires ValidPath(t, path) && SameShape(Sub(t, path), u)
    ensures SameShape(t, Replace(t, path, u, false))
    decreases |path|
  {
    if path != [] {
      var kid := KidAt(t.kids, path[0]);
      ReplacedShape(kid, path[1..], u);
      ShapeReplaced(t.kids, path[0], Replace(kid, path[1..], u, false));
    }
  }

  lemma {:induction false} ReplacedShaped(t: Tree, path: seq<nat>, u: Tree, grown: bool)
    requires ValidPath(t, path) && Shaped(t) && Shaped(u) && u.typ == Sub(t, path).typ
    ensures Shaped(Replace(t, path, u, grown)) && Replace(t, path, u, grown).typ == t.typ
    decreases |path|
  {
    if path != [] {
      ShapedKid(t.kids, path[0]);
      ReplacedShaped(KidAt(t.kids, path[0]), path[1..], u, grown);
      ShapedReplaceAt(t.kids, path[0], Replace(KidAt(t.kids, path[0]), path[1..], u, grown));
    }
  }

  lemma {:induction false} ShapedReplaceAt(f: Forest, i: nat, u: Tree)
    requires ShapedAll(f) && Shaped(u) && i < Count(f)
    ensures ShapedAll(ReplaceAt(f, i, u))
    decreases f
  {
    hide Shaped;
    if i > 0 {
      ShapedReplaceAt(f.tail, i - 1, u);
    }
  }

  lemma {:induction false} SubShaped(t: Tree, path: seq<nat>)
    requires ValidPath(t, path) && Shaped(t)
    ensures Shaped(Sub(t, path))
    decreases |path|
  {
    if path != [] {
      ShapedKid(t.kids, path[0]);
      SubShaped(KidAt(t.kids, path[0]), path[1..]);
    }
  }

  // ----- the AC-4 entry in the tree -----

  /** The path, from the moov, to the AC-4 entry of the first track that has one. */
  function FindEntry(f: Forest): (r: Option<seq<nat>>)
    ensures r.Some? ==> |r.value| == 6 && r.value[0] < Count(f) && KidAt(f, r.value[0]).typ == TRAK
                        && Find(KidAt(f, r.value[0]), TO_AC4) == Some(r.value[1..])
  {
    if f.Nil? then None else
    var down := if f.head.typ == TRAK then Find(f.head, TO_AC4) else None;
    if down.Some? then Some([0] + down.value) else
    match FindEntry(f.tail)
    case None => None
    case Some(path) => Some([path[0] + 1] + path[1..])
  }

  /** It is the first: no track in front of it has such an entry, and none at all if none is found. */
  lemma {:induction false} EntryIsFirst(f: Forest, i: nat)
    requires i < Count(f) && (FindEntry(f).Some? ==> i < FindEntry(f).value[0])
    ensures KidAt(f, i).typ != TRAK || Find(KidAt(f, i), TO_AC4).None?
    decreases f
  {
    hide Find;
    if i > 0 {
      EntryIsFirst(f.tail, i - 1);
    }
  }

  lemma {:induction false} LocateFromIs(data: seq<byte>, moov: Box, pos: nat, f: Forest)
    requires ParsesAll(data, pos, f) && ShapedAll(f) && moov.End() == pos + SizeAll(f)
    ensures LocateFrom(data, moov, pos)
         == match FindEntry(f)
            case None => None
            case Some(path) => Some([moov] + Chain(KidAt(f, path[0]), pos + Before(f, path[0]), path[1..]))
    decreases f
  {
    hide ReadBox, Descend, Find, Chain, Parses, Shaped, Size;
    if f.Cons? {
      BoxRead(data, pos, f.head);
      EntryDescends(data, pos, f.head);
      LocateFromIs(data, moov, pos + Size(f.head), f.tail);
      var rest := FindEntry(f.tail);
      if rest.Some? {
        assert ([rest.value[0] + 1] + rest.value[1..])[1..] == rest.value[1..];
      }
    }
  }

  lemma EntryDescends(data: seq<byte>, pos: nat, t: Tree)
    requires Parses(data, pos, t) && Shaped(t)
    ensures t.typ == TRAK ==>
              (Descend(data, BoxOf(t, pos), TO_AC4)
               == match Find(t, TO_AC4)
                  case None => None
                  case Some(path) => Some(Chain(t, pos, path)))
  {
    hide Descend, Find, Chain, Parses, Shaped;
    if t.typ == TRAK {
      EntryTypesWalkable();
      DescendFinds(data, pos, t, TO_AC4);
    }
  }

  lemma EntryTypesWalkable()
    ensures WalkTypes(TRAK, TO_AC4)
  {
    var a, b, c, d := [MINF, STBL, STSD, AC4], [STBL, STSD, AC4], [STSD, AC4], [AC4];
    assert TO_AC4[1..] == a && a[1..] == b && b[1..] == c && c[1..] == d && d[1..] == [];
    assert WalkTypes(AC4, []);
    assert WalkTypes(STSD, d);
    assert WalkTypes(STBL, c);
    assert WalkTypes(MINF, b);
    assert WalkTypes(MDIA, a);
  }

  /** The buffer is one moov, tiled by its children. */
  ghost predicate IsMoov(data: seq<byte>, moov: Tree) {
    Parses(data, 0, moov) && Shaped(moov) && moov.typ == MOOV && |data| == Size(moov)
  }

  /** Some tree tiles the moov. */
  ghost predicate Tiled(data: seq<byte>) {
    exists moov: Tree :: IsMoov(data, moov)
  }

  lemma TiledBy(data: seq<byte>, moov: Tree)
    requires IsMoov(data, moov)
    ensures Tiled(data)
  {
    hide IsMoov;
  }

  /** The search over bytes finds exactly what is in the tree, and the boxes around it. */
  lemma LocateIs(data: seq<byte>, moov: Tree)
    requires IsMoov(data, moov)
    ensures Locate(data) == match FindEntry(moov.kids)
                            case None => None
                            case Some(path) => Some(Chain(moov, 0, path))
  {
    hide LocateFrom, Parses, FindChild, FindEntry, Shaped;
    MoovParts(data, moov);
    ChunkOffsetsIs(data, moov);
    LocateFromIs(data, BoxOf(moov, 0), KidsPos(moov, 0), moov.kids);
  }

  lemma OffsetsOf(data: seq<byte>, moov: Tree)
    requires IsMoov(data, moov)
    ensures ChunkOffsets(data) == TreeOffsets(moov.kids)
  {
    hide Parses, Shaped, ChunkOffsets, TreeOffsets;
    ChunkOffsetsIs(data, moov);
  }

  lemma {:induction false} ShapeEntry(f: Forest, g: Forest)
    requires SameShapeAll(f, g)
    ensures FindEntry(f) == FindEntry(g)
    decreases f
  {
    hide Find;
    if f.Cons? {
      ShapeFind(f.head, g.head, TO_AC4);
      ShapeEntry(f.tail, g.tail);
    }
  }

  lemma {:induction false} ReplacedEntry(f: Forest, path: seq<nat>, kid: Tree)
    requires FindEntry(f) == Some(path) && kid.typ == TRAK && Find(kid, TO_AC4) == Some(path[1..])
    ensures FindEntry(ReplaceAt(f, path[0], kid)) == Some(path)
    decreases f
  {
    hide Find;
    var here := if f.head.typ == TRAK then Find(f.head, TO_AC4) else None;
    if here.None? {
      var rest := FindEntry(f.tail).value;
      assert rest[1..] == path[1..] && rest[0] + 1 == path[0];
      ReplacedEntry(f.tail, rest, kid);
    } else {
      assert path == [0] + path[1..];
    }
  }

  /** The edited entry is found where the old one was. */
  lemma EntryStays(moov: Tree, path: seq<nat>, u: Tree, grown: bool)
    requires FindEntry(moov.kids) == Some(path) && ValidPath(moov, path) && u.typ == Sub(moov, path).typ
    ensures FindEntry(Replace(moov, path, u, grown).kids) == Some(path)
  {
    hide FindEntry;
    var kid := KidAt(moov.kids, path[0]);
    ReplaceFound(kid, path[1..], u, grown, TO_AC4);
    ReplacedEntry(moov.kids, path, Replace(kid, path[1..], u, grown));
  }

  lemma EntryPath(moov: Tree, path: seq<nat>)
    requires FindEntry(moov.kids) == Some(path)
    ensures |path| == 6 && ValidPath(moov, path) && Sub(moov, path).typ == AC4
  {
    hide FindEntry;
    FoundType(KidAt(moov.kids, path[0]), TO_AC4);
  }

  lemma {:induction false} FoundType(t: Tree, types: seq<FourCc>)
    requires Find(t, types).Some? && types != []
    ensures Sub(t, Find(t, types).value).typ == types[|types| - 1]
    decreases |types|
  {
    var i := FirstIndex(t.kids, types[0]);
    var rest := Find(KidAt(t.kids, i), types[1..]).value;
    assert Find(t, types).value[1..] == rest;
    if |types| > 1 {
      FoundType(KidAt(t.kids, i), types[1..]);
    }
  }

  // ----- the shift does not touch the entry -----

  lemma {:induction false} DownKeeps(t: Tree, types: seq<FourCc>, path: seq<nat>, insertPos: int, delta: int)
    requires Find(t, types + [STSD, AC4]) == Some(path)
    ensures var u := ShiftDown(t, types, insertPos, delta);
            ValidPath(u, path) && Sub(u, path) == Sub(t, path)
    decreases |types|
  {
    var all := types + [STSD, AC4];
    var i := path[0];
    if types == [] {
      assert all == [STSD, AC4];
      TablesKeep(t, i, insertPos, delta);
    } else {
      assert all[1..] == types[1..] + [STSD, AC4];
      var kid := KidAt(t.kids, i);
      DownKeeps(kid, types[1..], path[1..], insertPos, delta);
      ReplaceAtOther(t.kids, i, ShiftDown(kid, types[1..], insertPos, delta), i, types[0]);
    }
  }

  lemma TablesKeep(t: Tree, j: nat, insertPos: int, delta: int)
    requires j < Count(t.kids) && KidAt(t.kids, j).typ == STSD
    ensures var u := ShiftDown(t, [], insertPos, delta);
            j < Count(u.kids) && KidAt(u.kids, j) == KidAt(t.kids, j)
  {
    hide ShiftTable;
    OtherKidKept(t, STCO, 4, insertPos, delta, j);
    OtherKidKept(ShiftFirst(t, STCO, 4, insertPos, delta), CO64, 8, insertPos, delta, j);
  }

  lemma OtherKidKept(t: Tree, typ: FourCc, width: nat, insertPos: int, delta: int, j: nat)
    requires width > 0 && j < Count(t.kids) && KidAt(t.kids, j).typ != typ
    ensures var u := ShiftFirst(t, typ, width, insertPos, delta);
            j < Count(u.kids) && KidAt(u.kids, j) == KidAt(t.kids, j)
  {
    hide ShiftTable;
    var i := FirstIndex(t.kids, typ);
    if i < Count(t.kids) {
      var leaf := KidAt(t.kids, i);
      ReplaceAtOther(t.kids, i, leaf.(fixed := ShiftTable(leaf.fixed, width, insertPos, delta)), j, typ);
    }
  }

  lemma {:induction false} ShiftTraksAt(f: Forest, i: nat, insertPos: int, delta: int)
    requires i < Count(f) && KidAt(f, i).typ == TRAK
    ensures var g := ShiftTraks(f, insertPos, delta);
            i < Count(g) && KidAt(g, i) == ShiftDown(KidAt(f, i), TO_STBL, insertPos, delta)
    decreases f
  {
    hide ShiftDown;
    if i > 0 {
      ShiftTraksAt(f.tail, i - 1, insertPos, delta);
    }
  }

  /** The shift keeps the shape of the moov and the whole AC-4 entry. */
  lemma ShiftKeepsEntry(moov: Tree, path: seq<nat>, insertPos: int, delta: int)
    requires FindEntry(moov.kids) == Some(path) && ValidPath(moov, path)
    ensures var m := ShiftMoov(moov, insertPos, delta);
            ValidPath(m, path) && Sub(m, path) == Sub(moov, path) && FindEntry(m.kids) == Some(path)
  {
    hide FindEntry, ShiftDown;
    ShiftTraksAt(moov.kids, path[0], insertPos, delta);
    ShiftTraksShape(moov.kids, insertPos, delta);
    ShapeEntry(moov.kids, ShiftTraks(moov.kids, insertPos, delta));
    assert TO_AC4 == TO_STBL + [STSD, AC4];
    DownKeeps(KidAt(moov.kids, path[0]), TO_STBL, path[1..], insertPos, delta);
  }

  // ----- the common edit on a tree -----

  /** Where in the box at the path the edit happens, and that the grown sizes fit their fields. */
  ghost predicate EditIn(moov: Tree, path: seq<nat>, at: nat, to: nat, n: nat) {
    && ValidPath(moov, path)
    && SubPos(moov, 0, path) + HdrLen(Sub(moov, path).kind) <= at <= to
    && to <= SubPos(moov, 0, path) + Size(Sub(moov, path))
    && PathFits(moov, path, n - (to - at))
  }

  lemma ShiftedShape(moov: Tree, insertPos: int, delta: int)
    ensures SameShape(moov, ShiftMoov(moov, insertPos, delta))
  {
    hide ShiftTraks;
    ShiftTraksShape(moov.kids, insertPos, delta);
  }

  lemma ChainIn(data: seq<byte>, moov: Tree, path: seq<nat>)
    requires IsMoov(data, moov) && ValidPath(moov, path)
    ensures AllInBuffer(Chain(moov, 0, path), data) && SubPos(moov, 0, path) + Size(Sub(moov, path)) <= |data|
    ensures Parses(data, SubPos(moov, 0, path), Sub(moov, path))
  {
    hide Parses, Shaped;
    ChainInBuffer(data, 0, moov, path);
  }

  /** The buffer after the shift of its chunk offsets. */
  lemma ShiftedMoov(data: seq<byte>, moov: Tree, insertPos: int, delta: int)
    requires IsMoov(data, moov)
    ensures IsMoov(ShiftFrom(data, BoxOf(moov, 0).Body(), BoxOf(moov, 0).End(), insertPos, delta),
                   ShiftMoov(moov, insertPos, delta))
  {
    hide Parses, Shaped, ShiftFrom, Outside, ShiftTraks;
    ShiftMoovParses(data, 0, moov, insertPos, delta);
    ShiftedShape(moov, insertPos, delta);
    ShapeKeepsSize(moov, ShiftMoov(moov, insertPos, delta));
    ShapedSame(moov, ShiftMoov(moov, insertPos, delta));
  }

  lemma EditInShape(moov: Tree, m: Tree, path: seq<nat>, at: nat, to: nat, n: nat)
    requires EditIn(moov, path, at, to, n) && SameShape(moov, m)
    ensures EditIn(m, path, at, to, n) && Chain(m, 0, path) == Chain(moov, 0, path)
    ensures SubPos(m, 0, path) == SubPos(moov, 0, path)
  {
    hide PathFits;
    ShapePath(moov, m, 0, path, n - (to - at));
    ShapeKeepsSize(Sub(moov, path), Sub(m, path));
  }

  /** What an edit leaves behind: the boxes around the edited one in place, its own header grown,
      its content as it was around the edit. */
  ghost predicate EditDone(s: seq<byte>, out: seq<byte>, m: Tree, path: seq<nat>, at: nat, to: nat, ins: seq<byte>)
    requires ValidPath(m, path)
  {
    && at <= to && |out| == |s| + |ins| - (to - at) && at + |ins| <= |out| && out[at..at + |ins|] == ins
    && Around(s, out, 0, m, path, |ins| - (to - at), true)
    && TargetCut(s, out, SubPos(m, 0, path), Sub(m, path), at, to, |ins| - (to - at))
  }

  lemma EditAround(data: seq<byte>, moov: Tree, path: seq<nat>, at: nat, to: nat, ins: seq<byte>, base: nat)
    returns (s: seq<byte>)
    requires IsMoov(data, moov) && EditIn(moov, path, at, to, |ins|)
    ensures AllInBuffer(Chain(moov, 0, path), data) && to <= |data|
    ensures var m := ShiftMoov(moov, base + at, |ins| - (to - at));
            && ValidPath(m, path) && IsMoov(s, m) && EditIn(m, path, at, to, |ins|)
            && SubPos(m, 0, path) == SubPos(moov, 0, path)
            && EditDone(s, Rewritten(data, Chain(moov, 0, path), at, to, ins, base), m, path, at, to, ins)
  {
    hide IsMoov, Around, EditDone, ShiftFrom, ShiftMoov, GrowAll, Spliced, PathFits;
    var delta := |ins| - (to - at);
    var m := ShiftMoov(moov, base + at, delta);
    s := ShiftFrom(data, BoxOf(moov, 0).Body(), BoxOf(moov, 0).End(), base + at, delta);
    ChainIn(data, moov, path);
    ShiftedMoov(data, moov, base + at, delta);
    ShiftedShape(moov, base + at, delta);
    EditInShape(moov, m, path, at, to, |ins|);
    ChainIn(s, m, path);
    SplicedAround(s, m, path, at, to, ins);
  }

  lemma SplicedAround(s: seq<byte>, m: Tree, path: seq<nat>, at: nat, to: nat, ins: seq<byte>)
    requires IsMoov(s, m) && EditIn(m, path, at, to, |ins|) && AllInBuffer(Chain(m, 0, path), s) && to <= |s|
    ensures EditDone(s, Spliced(GrowAll(s, Chain(m, 0, path), |ins| - (to - at)), at, to, ins), m, path, at, to, ins)
  {
    hide Parses, Shaped, PathFits, Around, TargetCut, GrowAll, Grew, Outside, Same, Spliced;
    var delta := |ins| - (to - at);
    var g := GrowAll(s, Chain(m, 0, path), delta);
    var hi := SubPos(m, 0, path) + HdrLen(Sub(m, path).kind);
    GrowAllGrew(s, 0, m, path, delta);
    SpliceKeeps(s, g, hi, at, to, ins);
    CutAround(s, g, Spliced(g, at, to, ins), 0, m, path, at, to, delta);
  }

  lemma SpliceKeeps(s: seq<byte>, g: seq<byte>, hi: nat, at: nat, to: nat, ins: seq<byte>)
    requires Outside(s, g, 0, hi) && hi <= at <= to <= |s|
    ensures |g| == |s| && Same(s, hi, g, hi, |s| - hi)
    ensures var out := Spliced(g, at, to, ins);
            && at + |ins| <= |out| && out[at..at + |ins|] == ins
            && Same(g, 0, out, 0, at) && Same(s, to, out, at + |ins|, |s| - to)
  {
    hide Same, Spliced;
    SplicedParts(g, at, to, ins);
    OutsidePart(s, g, 0, hi, hi, |s| - hi);
    OutsidePart(s, g, 0, hi, to, |s| - to);
    SameThrough(s, g, Spliced(g, at, to, ins), to, at + |ins|, |s| - to);
  }

  lemma SameThrough(data: seq<byte>, mid: seq<byte>, out: seq<byte>, pos: nat, pos': nat, n: nat)
    requires Same(data, pos, mid, pos, n) && Same(mid, pos, out, pos', n)
    ensures Same(data, pos, out, pos', n)
  {
  }

  lemma InsStands(s: seq<byte>, out: seq<byte>, m: Tree, path: seq<nat>, at: nat, to: nat, ins: seq<byte>)
    requires ValidPath(m, path) && EditDone(s, out, m, path, at, to, ins)
    ensures at <= to && |out| == |s| + |ins| - (to - at) && at + |ins| <= |out| && out[at..at + |ins|] == ins
  {
  }
}
