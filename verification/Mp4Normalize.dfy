/**
 Dropping the QuickTime extension, seen from the box tree; and what all edits share: how the
 edited box parses, and that an edit in the AC-4 entry or beside the tracks leaves the
 chunk-offset tables to the shift.
 */
module Mp4Normalize {
  import opened Bytes
  import opened Mp4Boxes
  import opened Mp4Edits
  import opened Mp4Tree
  import opened Mp4Shift
  import opened Mp4Splice
  import opened Mp4Surgery

  // ----- what the edits do to the box they are made in -----

  /** The last part of a box's own fields is cut away. */
  lemma FixedCut(s: seq<byte>, out: seq<byte>, pos: nat, t: Tree, keep: nat, delta: int)
    requires Parses(s, pos, t) && keep <= |t.fixed| && keep - |t.fixed| == delta && |out| == |s| + delta
    requires TargetCut(s, out, pos, t, pos + HdrLen(t.kind) + keep, KidsPos(t, pos), delta)
    ensures Parses(out, pos, t.(kind := Explicit(t.kind), fixed := t.fixed[..keep]))
  {
    hide HeaderIs, Same, Parses, ParsesAll, HasToEndAll, Size, SizeAll, TargetCut;
    SizeCut(t, keep, Explicit(t.kind));
    CutParts(s, out, pos, t, keep, delta);
    MovedAll(s, KidsPos(t, pos), out, KidsPos(t, pos) + delta, t.kids);
    BoxBuilt(out, pos, t.(kind := Explicit(t.kind), fixed := t.fixed[..keep]));
  }

  lemma SizeCut(t: Tree, keep: nat, kind: HdrKind)
    requires keep <= |t.fixed| && HdrLen(kind) == HdrLen(t.kind)
    ensures Size(t.(kind := kind, fixed := t.fixed[..keep])) == Size(t) + keep - |t.fixed|
  {
  }

  lemma CutParts(s: seq<byte>, out: seq<byte>, pos: nat, t: Tree, keep: nat, delta: int)
    requires Parses(s, pos, t) && keep <= |t.fixed| && keep - |t.fixed| == delta
    requires TargetCut(s, out, pos, t, pos + HdrLen(t.kind) + keep, KidsPos(t, pos), delta)
    ensures HeaderIs(out, pos, Explicit(t.kind), Size(t) + delta, t.typ) && ParsesAll(s, KidsPos(t, pos), t.kids)
    ensures var h := pos + HdrLen(t.kind); h + keep <= |out| && out[h..h + keep] == t.fixed[..keep]
    ensures Same(s, KidsPos(t, pos), out, KidsPos(t, pos) + delta, SizeAll(t.kids))
  {
    hide HeaderIs, Same, Parses, ParsesAll;
    var h := pos + HdrLen(t.kind);
    BoxParts(s, pos, t);
    SameSlices(s, h, out, h, keep);
    SliceOfSlice(s, h, KidsPos(t, pos), 0, keep);
  }

  lemma ConsParses(out: seq<byte>, pos: nat, kid: Tree, f: Forest)
    requires Parses(out, pos, kid) && ParsesAll(out, pos + Size(kid), f)
    ensures ParsesAll(out, pos, Cons(kid, f))
  {
  }

  lemma SizePut(t: Tree, kid: Tree, kind: HdrKind)
    requires HdrLen(kind) == HdrLen(t.kind)
    ensures Size(t) == HdrLen(t.kind) + |t.fixed| + SizeAll(t.kids)
    ensures Size(t.(kind := kind, kids := Cons(kid, t.kids))) == Size(t) + Size(kid)
  {
  }

  lemma KidsAfter(s: seq<byte>, out: seq<byte>, pos: nat, t: Tree, kid: Tree)
    requires Parses(s, pos, t) && |out| == |s| + Size(kid) && Parses(out, KidsPos(t, pos), kid)
    requires Same(s, KidsPos(t, pos), out, KidsPos(t, pos) + Size(kid), SizeAll(t.kids))
    ensures ParsesAll(out, KidsPos(t, pos), Cons(kid, t.kids))
  {
    hide Same, Parses, ParsesAll, Size, SizeAll, HasToEndAll, KidsPos;
    BoxParts(s, pos, t);
    MovedAll(s, KidsPos(t, pos), out, KidsPos(t, pos) + Size(kid), t.kids);
    ConsParses(out, KidsPos(t, pos), kid, t.kids);
  }

  lemma PutParts(s: seq<byte>, out: seq<byte>, pos: nat, t: Tree, n: nat)
    requires Parses(s, pos, t) && TargetCut(s, out, pos, t, KidsPos(t, pos), KidsPos(t, pos), n)
    ensures HeaderIs(out, pos, Explicit(t.kind), Size(t) + n, t.typ)
    ensures KidsPos(t, pos) <= |out| && out[pos + HdrLen(t.kind)..KidsPos(t, pos)] == t.fixed
    ensures Same(s, KidsPos(t, pos), out, KidsPos(t, pos) + n, SizeAll(t.kids))
  {
    hide HeaderIs, Same, Parses;
    BoxParts(s, pos, t);
    SameSlices(s, pos + HdrLen(t.kind), out, pos + HdrLen(t.kind), |t.fixed|);
  }

  /** A new first child. */
  lemma KidPut(s: seq<byte>, out: seq<byte>, pos: nat, t: Tree, kid: Tree)
    requires Parses(s, pos, t) && |out| == |s| + Size(kid)
    requires TargetCut(s, out, pos, t, KidsPos(t, pos), KidsPos(t, pos), Size(kid))
    requires Parses(out, KidsPos(t, pos), kid)
    ensures Parses(out, pos, t.(kind := Explicit(t.kind), kids := Cons(kid, t.kids)))
  {
    hide HeaderIs, Same, Parses, ParsesAll, Size, SizeAll, TargetCut;
    SizePut(t, kid, Explicit(t.kind));
    PutParts(s, out, pos, t, Size(kid));
    KidsAfter(s, out, pos, t, kid);
    BoxBuilt(out, pos, t.(kind := Explicit(t.kind), kids := Cons(kid, t.kids)));
  }

  /** One child replaced. */
  lemma KidSwapped(s: seq<byte>, out: seq<byte>, pos: nat, t: Tree, i: nat, kid: Tree, delta: int)
    requires Parses(s, pos, t) && i < Count(t.kids) && Size(kid) == Size(KidAt(t.kids, i)) + delta
    requires TargetCut(s, out, pos, t, KidPos(t, pos, i), KidPos(t, pos, i) + Size(KidAt(t.kids, i)), delta)
    requires Parses(out, KidPos(t, pos, i), kid) && |out| == |s| + delta
    ensures Parses(out, pos, t.(kind := Explicit(t.kind), kids := ReplaceAt(t.kids, i, kid)))
  {
    hide HeaderIs, Same;
    LevelParses(s, out, pos, t, i, kid, delta, true);
  }

  function Append(f: Forest, t: Tree): (r: Forest)
    ensures SizeAll(r) == SizeAll(f) + Size(t)
  {
    if f.Nil? then Cons(t, Nil) else Cons(f.head, Append(f.tail, t))
  }

  lemma {:induction false} AppendParses(out: seq<byte>, pos: nat, f: Forest, t: Tree)
    requires ParsesAll(out, pos, f) && Parses(out, pos + SizeAll(f), t)
    ensures ParsesAll(out, pos, Append(f, t))
    decreases f
  {
    hide Parses;
    if f.Cons? {
      AppendParses(out, pos + Size(f.head), f.tail, t);
    }
  }

  /** A new last child, when no box before it runs to the end of the buffer. */
  lemma KidAppended(s: seq<byte>, out: seq<byte>, pos: nat, t: Tree, kid: Tree)
    requires Parses(s, pos, t) && !HasToEndAll(t.kids) && |out| == |s| + Size(kid)
    requires TargetCut(s, out, pos, t, pos + Size(t), pos + Size(t), Size(kid))
    requires Parses(out, pos + Size(t), kid)
    ensures Parses(out, pos, t.(kind := Explicit(t.kind), kids := Append(t.kids, kid)))
  {
    hide HeaderIs, Same;
    var h, k := pos + HdrLen(t.kind), KidsPos(t, pos);
    SamePart(s, h, out, h, Size(t) - HdrLen(t.kind), 0, |t.fixed|);
    SameSlices(s, h, out, h, |t.fixed|);
    SamePart(s, h, out, h, Size(t) - HdrLen(t.kind), |t.fixed|, SizeAll(t.kids));
    MovedAll(s, k, out, k, t.kids);
    AppendParses(out, k, t.kids, kid);
  }

  /** Once the edited box parses anew, so does the whole moov. */
  lemma EditedParses(s: seq<byte>, out: seq<byte>, m: Tree, path: seq<nat>, at: nat, to: nat, ins: seq<byte>, u: Tree)
    requires IsMoov(s, m) && ValidPath(m, path) && EditDone(s, out, m, path, at, to, ins)
    requires Size(u) == Size(Sub(m, path)) + |ins| - (to - at)
    requires Parses(out, SubPos(m, 0, path), u) && Shaped(u) && u.typ == Sub(m, path).typ
    ensures IsMoov(out, Replace(m, path, u, true))
  {
    hide Parses, Shaped, Around, TargetCut;
    AroundParses(s, out, 0, m, path, u, |ins| - (to - at), true);
    ReplacedShaped(m, path, u, true);
  }

  // ----- a box changed in place -----

  lemma {:induction false} SubChanged(data: seq<byte>, out: seq<byte>, pos: nat, t: Tree, path: seq<nat>, u: Tree)
    requires ValidPath(t, path) && Parses(data, pos, t) && Size(u) == Size(Sub(t, path))
    requires Outside(data, out, SubPos(t, pos, path), SubPos(t, pos, path) + Size(u))
    requires Parses(out, SubPos(t, pos, path), u)
    ensures Parses(out, pos, Replace(t, path, u, false)) && Outside(data, out, pos, pos + Size(t))
    decreases |path|
  {
    hide Parses, Outside;
    if path != [] {
      var kid, kpos := KidAt(t.kids, path[0]), KidPos(t, pos, path[0]);
      PartOfKid(data, pos, t, path[0]);
      SubChanged(data, out, kpos, kid, path[1..], u);
      KidChanged(data, out, pos, t, path[0], Replace(kid, path[1..], u, false));
    }
  }

  // ----- the sample entry -----

  function Version(e: Tree): nat
    requires |e.fixed| >= 10
  {
    FromBE(e.fixed[8..10])
  }

  /** The fields of a sound sample entry, by version: ISO/IEC 14496-12 for version 0, QuickTime for 1 and 2. */
  predicate EntryShaped(e: Tree) {
    && |e.fixed| >= 28
    && |e.fixed| == 28 + if Version(e) == 1 then 16 else if Version(e) == 2 then 36 else 0
  }

  lemma EntryBytes(data: seq<byte>, pos: nat, e: Tree)
    requires Parses(data, pos, e) && EntryShaped(e)
    ensures BoxOf(e, pos).End() <= |data|
    ensures HasExtension(data, BoxOf(e, pos)) <==> Version(e) == 1
    ensures HeaderLen(data, BoxOf(e, pos)) == Some(|e.fixed|)
  {
    hide HeaderIs;
    EndsAtEnd(data, pos, e);
    var h := pos + HdrLen(e.kind);
    SliceOfSlice(data, h, KidsPos(e, pos), 8, 10);
    assert e.fixed[8..10] == data[h + 8..h + 10];
  }

  /** The entry with version 0 written over its version. */
  function Plain(e: Tree): (r: Tree)
    requires |e.fixed| >= 28
    ensures |r.fixed| == |e.fixed|
  {
    e.(fixed := e.fixed[..8] + [0, 0] + e.fixed[10..])
  }

  /** The entry with version 0 and without the extension. */
  function Stripped(e: Tree): Tree
    requires |e.fixed| >= 28
  {
    Plain(e).(kind := Explicit(e.kind), fixed := Plain(e).fixed[..28])
  }

  lemma PlainParses(data: seq<byte>, pos: nat, e: Tree)
    requires Parses(data, pos, e) && |e.fixed| >= 28 && pos + Size(e) <= |data|
    ensures var out := Overwrite(data, pos + HdrLen(e.kind) + 8, [0, 0]);
            Parses(out, pos, Plain(e)) && Outside(data, out, pos, pos + Size(e))
  {
    hide Parses, Outside;
    var h, k := pos + HdrLen(e.kind), KidsPos(e, pos);
    var out := Overwrite(data, h + 8, [0, 0]);
    OverwriteOutside(data, h + 8, [0, 0]);
    OutsideWider(data, out, h + 8, h + 10, h, k);
    OutsideWider(data, out, h, k, pos, pos + Size(e));
    BoxParts(data, pos, e);
    OverwrittenSlice(data, h, k, 8, [0, 0]);
    LeafChanged(data, out, pos, e, Plain(e).fixed);
  }

  lemma OverwrittenSlice(data: seq<byte>, lo: nat, hi: nat, i: nat, t: seq<byte>)
    requires lo + i + |t| <= hi <= |data|
    ensures Overwrite(data, lo + i, t)[lo..hi] == data[lo..hi][..i] + t + data[lo..hi][i + |t|..]
  {
    var out := Overwrite(data, lo + i, t);
    var want := data[lo..hi][..i] + t + data[lo..hi][i + |t|..];
    forall k | 0 <= k < hi - lo ensures out[lo..hi][k] == want[k] {
      assert out[lo..hi][k] == out[lo + k] && data[lo..hi][k] == data[lo + k];
      if i <= k < i + |t| {
        assert out[lo + i..lo + i + |t|][k - i] == t[k - i];
      }
    }
  }

  // ----- offsets do not depend on the entry or the metadata -----

  lemma {:induction false} DownIgnores(t: Tree, types: seq<FourCc>, path: seq<nat>, u: Tree, grown: bool)
    requires Find(t, types + [STSD, AC4]) == Some(path) && u.typ == Sub(t, path).typ
    ensures TreeDown(Replace(t, path, u, grown), types) == TreeDown(t, types)
    decreases |types|
  {
    hide TreeNamed;
    var all := types + [STSD, AC4];
    var i := path[0];
    var kid := KidAt(t.kids, i);
    var r := Replace(kid, path[1..], u, grown);
    if types == [] {
      assert all == [STSD, AC4] && all[1..] == [AC4];
      ReplaceFound(kid, path[1..], u, grown, [AC4]);
      NamedIgnores(t, i, r, STCO, 4, Replace(t, path, u, grown).kind);
      NamedIgnores(t, i, r, CO64, 8, Replace(t, path, u, grown).kind);
    } else {
      assert all[1..] == types[1..] + [STSD, AC4];
      ReplaceFound(kid, path[1..], u, grown, all[1..]);
      DownIgnores(kid, types[1..], path[1..], u, grown);
      ReplaceAtOther(t.kids, i, r, i, types[0]);
    }
  }

  lemma NamedIgnores(t: Tree, i: nat, r: Tree, typ: FourCc, width: nat, kind: HdrKind)
    requires width > 0 && i < Count(t.kids) && r.typ == KidAt(t.kids, i).typ && r.typ != typ
    ensures TreeNamed(t.(kind := kind, kids := ReplaceAt(t.kids, i, r)), typ, width) == TreeNamed(t, typ, width)
  {
    hide TableOffsets;
    ReplaceAtOther(t.kids, i, r, FirstIndex(t.kids, typ), typ);
  }

  lemma {:induction false} OffsetsIgnore(f: Forest, i: nat, kid: Tree)
    requires i < Count(f) && kid.typ == KidAt(f, i).typ
    requires kid.typ == TRAK ==> TreeDown(kid, TO_STBL) == TreeDown(KidAt(f, i), TO_STBL)
    ensures TreeOffsets(ReplaceAt(f, i, kid)) == TreeOffsets(f)
    decreases f
  {
    hide TreeDown;
    if i > 0 {
      OffsetsIgnore(f.tail, i - 1, kid);
    }
  }

  lemma {:induction false} AppendedOffsets(f: Forest, t: Tree)
    requires t.typ != TRAK
    ensures TreeOffsets(Append(f, t)) == TreeOffsets(f)
    decreases f
  {
    hide TreeDown;
    if f.Cons? {
      AppendedOffsets(f.tail, t);
    }
  }

  /** An edit inside the AC-4 entry leaves the offsets alone. */
  lemma EntryOffsets(moov: Tree, path: seq<nat>, u: Tree, grown: bool)
    requires FindEntry(moov.kids) == Some(path) && ValidPath(moov, path) && u.typ == Sub(moov, path).typ
    ensures TreeOffsets(Replace(moov, path, u, grown).kids) == TreeOffsets(moov.kids)
  {
    hide FindEntry, TreeOffsets;
    var kid := KidAt(moov.kids, path[0]);
    assert TO_AC4 == TO_STBL + [STSD, AC4];
    DownIgnores(kid, TO_STBL, path[1..], u, grown);
    ReplaceFound(kid, path[1..], u, grown, TO_AC4);
    OffsetsIgnore(moov.kids, path[0], Replace(kid, path[1..], u, grown));
  }

  // ----- the extension dropped -----

  function EntryAt(moov: Tree, path: seq<nat>): nat
    requires ValidPath(moov, path)
  {
    SubPos(moov, 0, path) + HdrLen(Sub(moov, path).kind)
  }

  /** The tree after the version was overwritten, the offsets shifted and the extension cut out. */
  function NormalTree(moov: Tree, path: seq<nat>, base: nat): Tree
    requires ValidPath(moov, path) && |Sub(moov, path).fixed| >= 28
  {
    var e := Sub(moov, path);
    var plain := Replace(moov, path, Plain(e), false);
    ReplacedSub(moov, path, Plain(e), false, 0);
    ShiftedShape(plain, base + EntryAt(moov, path) + 28, -16);
    ShapePath(plain, ShiftMoov(plain, base + EntryAt(moov, path) + 28, -16), 0, path, 0);
    Replace(ShiftMoov(plain, base + EntryAt(moov, path) + 28, -16), path, Stripped(e), true)
  }

  /** The entry stays where it was. */
  lemma NormalPlace(moov: Tree, path: seq<nat>, base: nat)
    requires ValidPath(moov, path) && |Sub(moov, path).fixed| >= 28
    ensures var r := NormalTree(moov, path, base);
            && ValidPath(r, path) && SubPos(r, 0, path) == SubPos(moov, 0, path)
            && Sub(r, path) == Stripped(Sub(moov, path))
  {
    hide ShiftMoov, Replace, Plain, Stripped, Sub, SubPos, ValidPath, Chain, SameShape;
    var e := Sub(moov, path);
    var plain := Replace(moov, path, Plain(e), false);
    var m := ShiftMoov(plain, base + EntryAt(moov, path) + 28, -16);
    assert Plain(e).typ == e.typ && Stripped(e).typ == e.typ by {
      KeepsType(e);
    }
    ReplacedSub(moov, path, Plain(e), false, 0);
    ShiftedShape(plain, base + EntryAt(moov, path) + 28, -16);
    ShapePath(plain, m, 0, path, 0);
    assert Sub(m, path).typ == e.typ by {
      ShapeType(Sub(plain, path), Sub(m, path));
    }
    ReplacedSub(m, path, Stripped(e), true, 0);
  }

  lemma KeepsType(e: Tree)
    requires |e.fixed| >= 28
    ensures Plain(e).typ == e.typ && Stripped(e).typ == e.typ
  {
  }

  lemma ShapeType(t: Tree, u: Tree)
    requires SameShape(t, u)
    ensures t.typ == u.typ && t.kind == u.kind
  {
  }

  /** The moov with version 0 written into its entry: what the offsets are shifted in. */
  lemma PlainMoov(data: seq<byte>, moov: Tree, path: seq<nat>)
    requires IsMoov(data, moov) && FindEntry(moov.kids) == Some(path) && ValidPath(moov, path)
    requires |Sub(moov, path).fixed| >= 28 && EntryAt(moov, path) + 10 <= |data|
    ensures var plain := Replace(moov, path, Plain(Sub(moov, path)), false);
            && IsMoov(Overwrite(data, EntryAt(moov, path) + 8, [0, 0]), plain) && SameShape(moov, plain)
            && ValidPath(plain, path) && Sub(plain, path) == Plain(Sub(moov, path))
            && FindEntry(plain.kids) == Some(path) && TreeOffsets(plain.kids) == TreeOffsets(moov.kids)
  {
    hide Parses, Shaped, FindEntry, TreeOffsets, Outside, Overwrite;
    var e := Sub(moov, path);
    ChainIn(data, moov, path);
    PlainParses(data, SubPos(moov, 0, path), e);
    SubChanged(data, Overwrite(data, EntryAt(moov, path) + 8, [0, 0]), 0, moov, path, Plain(e));
    ReplacedSub(moov, path, Plain(e), false, 0);
    ShapeIsReflexiveAll(e.kids);
    ReplacedShape(moov, path, Plain(e));
    SameMoov(data, Overwrite(data, EntryAt(moov, path) + 8, [0, 0]), moov, Replace(moov, path, Plain(e), false));
    EntryStays(moov, path, Plain(e), false);
    EntryOffsets(moov, path, Plain(e), false);
  }

  lemma SameMoov(data: seq<byte>, out: seq<byte>, moov: Tree, m: Tree)
    requires IsMoov(data, moov) && SameShape(moov, m) && Parses(out, 0, m) && |out| == |data|
    ensures IsMoov(out, m)
  {
    hide Parses, Shaped;
    ShapeKeepsSize(moov, m);
    ShapedSame(moov, m);
  }

  /** An edit inside the AC-4 entry: the moov parses as the shifted tree with the edited entry in
      its place, and every chunk offset is shifted. */
  lemma EntryEdited(data: seq<byte>, moov: Tree, path: seq<nat>, at: nat, to: nat, ins: seq<byte>, base: nat,
                    s: seq<byte>, u: Tree)
    requires IsMoov(data, moov) && FindEntry(moov.kids) == Some(path) && EditIn(moov, path, at, to, |ins|)
    requires AllInBuffer(Chain(moov, 0, path), data) && to <= |data|
    requires var m := ShiftMoov(moov, base + at, |ins| - (to - at));
             && ValidPath(m, path) && IsMoov(s, m) && SubPos(m, 0, path) == SubPos(moov, 0, path)
             && EditDone(s, Rewritten(data, Chain(moov, 0, path), at, to, ins, base), m, path, at, to, ins)
    requires Parses(Rewritten(data, Chain(moov, 0, path), at, to, ins, base), SubPos(moov, 0, path), u)
    requires Shaped(u) && u.typ == AC4 && Size(u) == Size(Sub(moov, path)) + |ins| - (to - at)
    ensures var r := Replace(ShiftMoov(moov, base + at, |ins| - (to - at)), path, u, true);
            && IsMoov(Rewritten(data, Chain(moov, 0, path), at, to, ins, base), r)
            && FindEntry(r.kids) == Some(path) && ValidPath(r, path) && Sub(r, path) == u
            && AllShifted(TreeOffsets(moov.kids), TreeOffsets(r.kids), base + at, |ins| - (to - at))
  {
    hide IsMoov, EditDone, PathFits, Parses, Shaped, FindEntry, TreeOffsets, Rewritten, AllShifted, ShiftTraks;
    hide SubPos, Chain, Find, AllInBuffer;
    var delta := |ins| - (to - at);
    var m := ShiftMoov(moov, base + at, delta);
    ShiftKeepsEntry(moov, path, base + at, delta);
    EntryPath(moov, path);
    EditedParses(s, Rewritten(data, Chain(moov, 0, path), at, to, ins, base), m, path, at, to, ins, u);
    EntryStays(m, path, u, true);
    ReplacedSub(m, path, u, true, 0);
    TraksShifted(moov.kids, base + at, delta);
    EntryOffsets(m, path, u, true);
  }

  /** What an entry edit starts from and what it must have room for. */
  ghost predicate Editable(data: seq<byte>, moov: Tree, path: seq<nat>) {
    && IsMoov(data, moov) && FindEntry(moov.kids) == Some(path) && ValidPath(moov, path)
    && Sub(moov, path).typ == AC4 && EntryShaped(Sub(moov, path))
  }

  lemma EntryIn(data: seq<byte>, moov: Tree, path: seq<nat>)
    requires Editable(data, moov, path)
    ensures Shaped(Sub(moov, path)) && SubPos(moov, 0, path) + Size(Sub(moov, path)) <= |data|
    ensures KidsPos(Sub(moov, path), SubPos(moov, 0, path)) <= SubPos(moov, 0, path) + Size(Sub(moov, path))
  {
    hide Parses, Shaped, FindEntry;
    SubShaped(moov, path);
    ChainIn(data, moov, path);
  }

  lemma StrippedShaped(e: Tree)
    requires e.typ == AC4 && Shaped(e) && EntryShaped(e) && Version(e) == 1
    ensures Shaped(Stripped(e)) && EntryShaped(Stripped(e)) && Version(Stripped(e)) == 0
    ensures Stripped(e).typ == AC4 && Size(Stripped(e)) == Size(e) - 16 && |e.fixed| == 44
  {
    var f := Stripped(e).fixed;
    assert f[8..10] == [0, 0];
    assert [0, 0][..1] == [0];
    assert FromBE([0]) == 0 && FromBE([0, 0]) == 0;
  }

  /** The code works on the boxes of the tree. */
  lemma NormalizedIs(data: seq<byte>, moov: Tree, path: seq<nat>, base: nat)
    requires Editable(data, moov, path)
    ensures Version(Sub(moov, path)) != 1 ==> Normalized(data, base) == data
    ensures Version(Sub(moov, path)) == 1 ==>
              && EntryAt(moov, path) + 44 <= SubPos(moov, 0, path) + Size(Sub(moov, path)) <= |data|
              && var p := Overwrite(data, EntryAt(moov, path) + 8, [0, 0]);
                 && AllInBuffer(Chain(moov, 0, path), p)
                 && Normalized(data, base)
                    == Rewritten(p, Chain(moov, 0, path), EntryAt(moov, path) + 28, EntryAt(moov, path) + 44, [], base)
  {
    hide Parses, Shaped, FindEntry, Rewritten, Locate, HasExtension, Overwrite;
    LocateIs(data, moov);
    ChainIn(data, moov, path);
    EntryPath(moov, path);
    EntryBytes(data, SubPos(moov, 0, path), Sub(moov, path));
    if Version(Sub(moov, path)) == 1 {
      StaysInBuffer(Chain(moov, 0, path), data, Overwrite(data, EntryAt(moov, path) + 8, [0, 0]));
    }
  }

  lemma EntryCut(s: seq<byte>, out: seq<byte>, m: Tree, path: seq<nat>, at: nat, e: Tree)
    requires ValidPath(m, path) && IsMoov(s, m) && EditDone(s, out, m, path, at, at + 16, [])
    requires |e.fixed| == 44 && Sub(m, path) == Plain(e) && at == SubPos(m, 0, path) + HdrLen(e.kind) + 28
    ensures Parses(out, SubPos(m, 0, path), Stripped(e))
  {
    hide IsMoov, Parses, Around, TargetCut;
    ChainIn(s, m, path);
    FixedCut(s, out, SubPos(m, 0, path), Plain(e), 28, -16);
  }

  lemma CutRoom(plain: Tree, path: seq<nat>, e: Tree)
    requires ValidPath(plain, path) && PathFits(plain, path, -16) && |e.fixed| == 44 && Sub(plain, path) == Plain(e)
    ensures EditIn(plain, path, EntryAt(plain, path) + 28, EntryAt(plain, path) + 44, 0)
    ensures EntryAt(plain, path) == SubPos(plain, 0, path) + HdrLen(e.kind)
    ensures Size(Stripped(e)) == Size(Plain(e)) - 16
  {
    hide PathFits;
  }

  lemma ExtensionCut(p: seq<byte>, plain: Tree, path: seq<nat>, at: nat, base: nat, e: Tree)
    requires IsMoov(p, plain) && FindEntry(plain.kids) == Some(path) && ValidPath(plain, path)
             && PathFits(plain, path, -16)
    requires |e.fixed| == 44 && Sub(plain, path) == Plain(e) && at == EntryAt(plain, path) + 28
    requires Shaped(Stripped(e)) && Stripped(e).typ == AC4
    requires AllInBuffer(Chain(plain, 0, path), p) && at + 16 <= |p|
    ensures var m := ShiftMoov(plain, base + at, -16);
            ValidPath(m, path) &&
            var r := Replace(m, path, Stripped(e), true);
            && IsMoov(Rewritten(p, Chain(plain, 0, path), at, at + 16, [], base), r)
            && FindEntry(r.kids) == Some(path) && ValidPath(r, path) && Sub(r, path) == Stripped(e)
            && AllShifted(TreeOffsets(plain.kids), TreeOffsets(r.kids), base + at, -16)
  {
    hide IsMoov, EditDone, Parses, Shaped, FindEntry, TreeOffsets, Rewritten, AllShifted, PathFits;
    hide ShiftMoov, SameShape, EditDone, EditIn, AllInBuffer, Plain, Stripped, Replace, Sub, SubPos, Chain, ValidPath;
    hide Find, Size;
    CutRoom(plain, path, e);
    var s := EditAround(p, plain, path, at, at + 16, [], base);
    var out := Rewritten(p, Chain(plain, 0, path), at, at + 16, [], base);
    ShiftKeepsEntry(plain, path, base + at, -16);
    EntryCut(s, out, ShiftMoov(plain, base + at, -16), path, at, e);
    EntryEdited(p, plain, path, at, at + 16, [], base, s, Stripped(e));
  }

  /** Dropping the version-1 extension: the moov parses as the same tree with version 0 written
      into the entry, the 16 bytes behind its 28 bytes of version-0 fields gone and every chunk
      offset shifted by -16. */
  lemma NormalizedParses(data: seq<byte>, moov: Tree, path: seq<nat>, base: nat)
    requires Editable(data, moov, path) && Version(Sub(moov, path)) == 1 && PathFits(moov, path, -16)
    ensures var r := NormalTree(moov, path, base);
            && Editable(Normalized(data, base), r, path) && Sub(r, path) == Stripped(Sub(moov, path))
            && AllShifted(TreeOffsets(moov.kids), TreeOffsets(r.kids), base + EntryAt(moov, path) + 28, -16)
  {
    hide IsMoov, Parses, Shaped, FindEntry, TreeOffsets, Rewritten, AllShifted, PathFits, Normalized, EntryShaped;
    hide ShiftMoov, SameShape, Overwrite, Replace, Sub, SubPos, Chain, ValidPath, Find, Size;
    var e, at := Sub(moov, path), EntryAt(moov, path) + 28;
    EntryIn(data, moov, path);
    StrippedShaped(e);
    NormalizedIs(data, moov, path, base);
    var plain := Replace(moov, path, Plain(e), false);
    PlainMoov(data, moov, path);
    ShapePath(moov, plain, 0, path, -16);
    ExtensionCut(Overwrite(data, EntryAt(moov, path) + 8, [0, 0]), plain, path, at, base, e);
  }
}
