/**
 Growing the boxes on the way to an edited box and splicing bytes into it: when the
 result parses, and as which tree.
 */
module Mp4Splice {
  import opened Bytes
  import opened Mp4Boxes
  import opened Mp4Edits
  import opened Mp4Tree
  import opened Mp4Shift

  lemma SplicedParts(data: seq<byte>, from: nat, to: nat, ins: seq<byte>)
    requires from <= to <= |data|
    ensures var out := Spliced(data, from, to, ins);
            && Same(data, 0, out, 0, from) && out[from..from + |ins|] == ins
            && Same(data, to, out, from + |ins|, |data| - to)
  {
  }

  // ----- one grown header -----

  /** The header of t in g: the size field rewritten, the rest as in data. */
  ghost predicate HdrGrown(data: seq<byte>, g: seq<byte>, pos: nat, t: Tree, delta: int) {
    var b := BoxOf(t, pos);
    && pos + b.hdr <= |data| && pos + b.hdr <= |g|
    && g[FieldPos(b)..FieldPos(b) + FieldWidth(b)] == GrownField(b, delta)
    && if b.hdr == 16 then Same(data, pos, g, pos, 8) else Same(data, pos + 4, g, pos + 4, 4)
  }

  /** The new size must fit the field it is stored in. */
  predicate SizeFits(kind: HdrKind, size: int) {
    8 <= size < if kind == Long then INT64_LIMIT else 0x1_0000_0000
  }

  lemma GrownHeaderIs(data: seq<byte>, g: seq<byte>, pos: nat, t: Tree, delta: int)
    requires HeaderIs(data, pos, t.kind, Size(t), t.typ) && HdrGrown(data, g, pos, t, delta)
    requires SizeFits(t.kind, Size(t) + delta) && HdrLen(t.kind) <= Size(t) + delta
    requires pos + Size(t) + delta <= |g|
    ensures HeaderIs(g, pos, Explicit(t.kind), Size(t) + delta, t.typ)
  {
    if t.kind == Long {
      LongHeaderIs(data, g, pos, t, delta);
    } else {
      ShortHeaderIs(data, g, pos, t, delta);
    }
  }

  lemma LongHeaderIs(data: seq<byte>, g: seq<byte>, pos: nat, t: Tree, delta: int)
    requires t.kind == Long && HeaderIs(data, pos, t.kind, Size(t), t.typ) && HdrGrown(data, g, pos, t, delta)
    requires SizeFits(t.kind, Size(t) + delta) && 16 <= Size(t) + delta && pos + Size(t) + delta <= |g|
    ensures HeaderIs(g, pos, Long, Size(t) + delta, t.typ)
  {
    hide Same, FromBE, ToBE, Size;
    Pow256Values();
    FromToBE(Size(t) + delta, 8);
    LongFront(data, g, pos);
  }

  lemma LongFront(data: seq<byte>, g: seq<byte>, pos: nat)
    requires Same(data, pos, g, pos, 8)
    ensures pos + 8 <= |data| && pos + 8 <= |g|
    ensures Read32(g, pos) == Read32(data, pos) && Read32(g, pos + 4) == Read32(data, pos + 4)
  {
    hide Same, FromBE;
    SamePart(data, pos, g, pos, 8, 0, 4);
    SamePart(data, pos, g, pos, 8, 4, 4);
    SameSlices(data, pos, g, pos, 4);
    SameSlices(data, pos + 4, g, pos + 4, 4);
  }

  lemma ShortHeaderIs(data: seq<byte>, g: seq<byte>, pos: nat, t: Tree, delta: int)
    requires t.kind != Long && HeaderIs(data, pos, t.kind, Size(t), t.typ) && HdrGrown(data, g, pos, t, delta)
    requires SizeFits(t.kind, Size(t) + delta) && 8 <= Size(t) + delta && pos + Size(t) + delta <= |g|
    ensures HeaderIs(g, pos, Short, Size(t) + delta, t.typ)
  {
    hide Same, FromBE, ToBE, Size;
    Pow256Values();
    FromToBE(Size(t) + delta, 4);
    SameSlices(data, pos + 4, g, pos + 4, 4);
  }

  // ----- all headers on the path -----

  ghost predicate Grew(data: seq<byte>, g: seq<byte>, pos: nat, t: Tree, path: seq<nat>, delta: int)
    requires ValidPath(t, path)
    decreases |path|
  {
    && HdrGrown(data, g, pos, t, delta)
    && (path != [] ==>
          && Same(data, pos + HdrLen(t.kind), g, pos + HdrLen(t.kind), |t.fixed| + Before(t.kids, path[0]))
          && Grew(data, g, KidPos(t, pos, path[0]), KidAt(t.kids, path[0]), path[1..], delta))
  }

  lemma GrowHeader(data: seq<byte>, pos: nat, t: Tree, delta: int)
    requires InBuffer(BoxOf(t, pos), data)
    ensures var g := Grow(data, BoxOf(t, pos), delta);
            HdrGrown(data, g, pos, t, delta) && Outside(data, g, pos, pos + HdrLen(t.kind))
  {
    hide ToBE;
  }

  /** Nothing but a later region of g differs from mid: the grown header is still there. */
  lemma HdrStays(data: seq<byte>, mid: seq<byte>, g: seq<byte>, pos: nat, t: Tree, delta: int)
    requires HdrGrown(data, mid, pos, t, delta) && Same(mid, pos, g, pos, HdrLen(t.kind))
    ensures HdrGrown(data, g, pos, t, delta)
  {
    hide ToBE;
    if t.kind == Long {
      SamePart(mid, pos, g, pos, 16, 0, 8);
      SamePart(mid, pos, g, pos, 16, 8, 8);
    } else {
      SamePart(mid, pos, g, pos, 8, 0, 4);
      SamePart(mid, pos, g, pos, 8, 4, 4);
    }
  }

  /** What was compared with mid can be compared with data, if they agree from lo on. */
  lemma {:induction false} GrewFrom(data: seq<byte>, mid: seq<byte>, g: seq<byte>, lo: nat, pos: nat, t: Tree,
                                    path: seq<nat>, delta: int)
    requires ValidPath(t, path) && Grew(mid, g, pos, t, path, delta)
    requires lo <= pos && |data| == |mid| && lo <= |data| && Same(data, lo, mid, lo, |data| - lo)
    ensures Grew(data, g, pos, t, path, delta)
    decreases |path|
  {
    HdrFrom(data, mid, g, lo, pos, t, delta);
    if path != [] {
      hide HdrGrown;
      var start, n := pos + HdrLen(t.kind), |t.fixed| + Before(t.kids, path[0]);
      SamePart(data, lo, mid, lo, |data| - lo, start - lo, n);
      GrewFrom(data, mid, g, lo, KidPos(t, pos, path[0]), KidAt(t.kids, path[0]), path[1..], delta);
    }
  }

  lemma HdrFrom(data: seq<byte>, mid: seq<byte>, g: seq<byte>, lo: nat, pos: nat, t: Tree, delta: int)
    requires HdrGrown(mid, g, pos, t, delta)
    requires lo <= pos && |data| == |mid| && lo <= |data| && Same(data, lo, mid, lo, |data| - lo)
    ensures HdrGrown(data, g, pos, t, delta)
  {
    hide ToBE;
    if t.kind == Long {
      SamePart(data, lo, mid, lo, |data| - lo, pos - lo, 8);
    } else {
      SamePart(data, lo, mid, lo, |data| - lo, pos + 4 - lo, 4);
    }
  }

  lemma {:induction false} ChainInBuffer(data: seq<byte>, pos: nat, t: Tree, path: seq<nat>)
    requires ValidPath(t, path) && Parses(data, pos, t)
    ensures AllInBuffer(Chain(t, pos, path), data)
    ensures pos + HdrLen(t.kind) <= SubPos(t, pos, path) + HdrLen(Sub(t, path).kind)
    ensures SubPos(t, pos, path) + Size(Sub(t, path)) <= pos + Size(t) <= |data|
    ensures Parses(data, SubPos(t, pos, path), Sub(t, path))
    decreases |path|
  {
    EndsAtEnd(data, pos, t);
    if path != [] {
      hide ReadBox;
      KidParses(data, KidsPos(t, pos), t.kids, path[0]);
      ChainInBuffer(data, KidPos(t, pos, path[0]), KidAt(t.kids, path[0]), path[1..]);
    }
  }

  lemma HeadInBuffer(chain: seq<Box>, data: seq<byte>)
    requires chain != [] && AllInBuffer(chain, data)
    ensures InBuffer(chain[0], data)
  {
    assert chain[0] in chain;
  }

  /** Growing a chain of boxes, one inside the next, rewrites their size fields and nothing else. */
  lemma {:induction false} GrowAllGrew(data: seq<byte>, pos: nat, t: Tree, path: seq<nat>, delta: int)
    requires ValidPath(t, path) && AllInBuffer(Chain(t, pos, path), data)
    ensures var g := GrowAll(data, Chain(t, pos, path), delta);
            && Grew(data, g, pos, t, path, delta)
            && SubPos(t, pos, path) + HdrLen(Sub(t, path).kind) <= |data|
            && pos <= SubPos(t, pos, path)
            && Outside(data, g, pos, SubPos(t, pos, path) + HdrLen(Sub(t, path).kind))
    decreases |path|
  {
    hide Grow, HdrGrown, Outside, AllInBuffer, Size;
    var chain := Chain(t, pos, path);
    HeadInBuffer(chain, data);
    var mid := Grow(data, BoxOf(t, pos), delta);
    GrowHeader(data, pos, t, delta);
    InBufferTail(chain, data, mid);
    if path != [] {
      var kid, kpos := KidAt(t.kids, path[0]), KidPos(t, pos, path[0]);
      assert chain[1..] == Chain(kid, kpos, path[1..]);
      GrowAllGrew(mid, kpos, kid, path[1..], delta);
      GrewCons(data, mid, GrowAll(mid, chain[1..], delta), pos, t, path, delta);
    } else {
      assert chain[1..] == [];
    }
  }

  lemma GrewCons(data: seq<byte>, mid: seq<byte>, g: seq<byte>, pos: nat, t: Tree, path: seq<nat>, delta: int)
    requires ValidPath(t, path) && path != []
    requires HdrGrown(data, mid, pos, t, delta) && Outside(data, mid, pos, pos + HdrLen(t.kind))
    requires Grew(mid, g, KidPos(t, pos, path[0]), KidAt(t.kids, path[0]), path[1..], delta)
    requires var hi := SubPos(t, pos, path) + HdrLen(Sub(t, path).kind);
             && KidPos(t, pos, path[0]) <= SubPos(t, pos, path) && hi <= |data|
             && Outside(mid, g, KidPos(t, pos, path[0]), hi)
    ensures Grew(data, g, pos, t, path, delta)
    ensures Outside(data, g, pos, SubPos(t, pos, path) + HdrLen(Sub(t, path).kind))
  {
    hide HdrGrown, Same;
    var h, kpos := HdrLen(t.kind), KidPos(t, pos, path[0]);
    var hi := SubPos(t, pos, path) + HdrLen(Sub(t, path).kind);
    OutsidePart(mid, g, kpos, hi, pos, h);
    HdrStays(data, mid, g, pos, t, delta);
    OutsideWider(data, mid, pos, pos + h, pos, hi);
    OutsideWider(mid, g, kpos, hi, pos, hi);
    OutsideTwice(data, mid, g, pos, hi);
    OutsidePart(data, mid, pos, pos + h, pos + h, kpos - (pos + h));
    OutsidePart(mid, g, kpos, hi, pos + h, kpos - (pos + h));
    SameTwice(data, mid, g, pos + h, kpos - (pos + h));
    OutsidePart(data, mid, pos, pos + h, kpos, |data| - kpos);
    GrewFrom(data, mid, g, kpos, kpos, KidAt(t.kids, path[0]), path[1..], delta);
  }

  lemma SameTwice(data: seq<byte>, mid: seq<byte>, g: seq<byte>, pos: nat, n: nat)
    requires Same(data, pos, mid, pos, n) && Same(mid, pos, g, pos, n)
    ensures Same(data, pos, g, pos, n)
  {
  }

  // ----- grown and spliced -----

  ghost predicate PathFits(t: Tree, path: seq<nat>, delta: int)
    requires ValidPath(t, path)
    decreases |path|
  {
    && SizeFits(t.kind, Size(t) + delta) && HdrLen(t.kind) <= Size(t) + delta
    && (path != [] ==> PathFits(KidAt(t.kids, path[0]), path[1..], delta))
  }

  /** What the splice leaves of the target box: its header grown, its content around the cut. */
  ghost predicate TargetCut(data: seq<byte>, out: seq<byte>, pos: nat, t: Tree, from: nat, to: nat, delta: int) {
    && pos + HdrLen(t.kind) <= from <= to <= pos + Size(t) && 0 <= Size(t) + delta && 0 <= to + delta
    && HeaderIs(out, pos, Explicit(t.kind), Size(t) + delta, t.typ)
    && Same(data, pos + HdrLen(t.kind), out, pos + HdrLen(t.kind), from - (pos + HdrLen(t.kind)))
    && Same(data, to, out, to + delta, pos + Size(t) - to)
  }

  /** One header on the path, after the growth and the splice. */
  lemma HeaderCut(data: seq<byte>, g: seq<byte>, out: seq<byte>, pos: nat, t: Tree, from: nat, delta: int)
    requires Parses(data, pos, t) && SizeFits(t.kind, Size(t) + delta) && HdrLen(t.kind) <= Size(t) + delta
    requires HdrGrown(data, g, pos, t, delta) && pos + HdrLen(t.kind) <= from && Same(g, 0, out, 0, from)
    requires pos + Size(t) <= |data| && |out| == |data| + delta
    ensures HeaderIs(out, pos, Explicit(t.kind), Size(t) + delta, t.typ)
  {
    hide HdrGrown, Same, HeaderIs, SizeFits, ParsesAll;
    SamePart(g, 0, out, 0, from, pos, HdrLen(t.kind));
    HdrStays(data, g, out, pos, t, delta);
    GrownHeaderIs(data, out, pos, t, delta);
  }

  lemma ContentCut(data: seq<byte>, g: seq<byte>, out: seq<byte>, pos: nat, t: Tree, from: nat, to: nat, delta: int)
    requires pos + HdrLen(t.kind) <= from <= to <= pos + Size(t) <= |data| && 0 <= to + delta && 0 <= Size(t) + delta
    requires HeaderIs(out, pos, Explicit(t.kind), Size(t) + delta, t.typ)
    requires var hi := pos + HdrLen(t.kind); Same(data, hi, g, hi, |data| - hi)
    requires Same(g, 0, out, 0, from) && Same(data, to, out, to + delta, |data| - to)
    ensures TargetCut(data, out, pos, t, from, to, delta)
  {
    hide Same, HeaderIs;
    var hi := pos + HdrLen(t.kind);
    SamePart(data, hi, g, hi, |data| - hi, 0, from - hi);
    SamePart(g, 0, out, 0, from, hi, from - hi);
    SameTwice(data, g, out, hi, from - hi);
    SamePart(data, to, out, to + delta, |data| - to, 0, pos + Size(t) - to);
  }

  lemma LevelCut(data: seq<byte>, g: seq<byte>, out: seq<byte>, pos: nat, t: Tree, i: nat, from: nat, to: nat,
                 delta: int)
    requires i < Count(t.kids) && 0 <= Size(t) + delta && pos + Size(t) <= |data|
    requires HeaderIs(out, pos, Explicit(t.kind), Size(t) + delta, t.typ)
    requires var start := pos + HdrLen(t.kind); Same(data, start, g, start, |t.fixed| + Before(t.kids, i))
    requires KidPos(t, pos, i) <= from && to <= KidPos(t, pos, i) + Size(KidAt(t.kids, i)) && 0 <= to + delta
    requires Same(g, 0, out, 0, from) && to <= |data| && Same(data, to, out, to + delta, |data| - to)
    ensures Level(data, out, pos, t, i, delta, true)
  {
    hide Same, HeaderIs;
    var start, n := pos + HdrLen(t.kind), |t.fixed| + Before(t.kids, i);
    var after := KidPos(t, pos, i) + Size(KidAt(t.kids, i));
    SamePart(g, 0, out, 0, from, start, n);
    SameTwice(data, g, out, start, n);
    SamePart(data, to, out, to + delta, |data| - to, after - to, pos + Size(t) - after);
  }

  lemma {:induction false} CutAround(data: seq<byte>, g: seq<byte>, out: seq<byte>, pos: nat, t: Tree, path: seq<nat>,
                                     from: nat, to: nat, delta: int)
    requires ValidPath(t, path) && Parses(data, pos, t) && PathFits(t, path, delta)
    requires Grew(data, g, pos, t, path, delta)
    requires SubPos(t, pos, path) + HdrLen(Sub(t, path).kind) <= from <= to <= SubPos(t, pos, path) + Size(Sub(t, path))
    requires var hi := SubPos(t, pos, path) + HdrLen(Sub(t, path).kind);
             hi <= |data| && Same(data, hi, g, hi, |data| - hi)
    requires Same(g, 0, out, 0, from) && 0 <= to + delta && to <= |data| && |out| == |data| + delta
    requires Same(data, to, out, to + delta, |data| - to)
    ensures Around(data, out, pos, t, path, delta, true)
    ensures TargetCut(data, out, SubPos(t, pos, path), Sub(t, path), from, to, delta)
    decreases |path|
  {
    hide HdrGrown, Same, HeaderIs, HasToEnd, SizeFits, Parses, Level, TargetCut;
    ChainInBuffer(data, pos, t, path);
    HeaderCut(data, g, out, pos, t, from, delta);
    if path == [] {
      ContentCut(data, g, out, pos, t, from, to, delta);
    } else {
      var i := path[0];
      var kid, kpos := KidAt(t.kids, i), KidPos(t, pos, i);
      PartOfKid(data, pos, t, i);
      ChainInBuffer(data, kpos, kid, path[1..]);
      CutAround(data, g, out, kpos, kid, path[1..], from, to, delta);
      LevelCut(data, g, out, pos, t, i, from, to, delta);
    }
  }

  lemma PartOfKid(data: seq<byte>, pos: nat, t: Tree, i: nat)
    requires Parses(data, pos, t) && i < Count(t.kids)
    ensures Parses(data, KidPos(t, pos, i), KidAt(t.kids, i))
  {
    hide HeaderIs;
    KidParses(data, KidsPos(t, pos), t.kids, i);
  }
}
