/**
 The box tree behind a buffer. `Parses(data, pos, t)` says that the bytes at `pos`
 read, header by header, as the tree `t`, whose children tile it exactly. The lemmas
 here say how the byte-level walks see such a tree, and when a changed buffer
 still parses and as what.
 */
module Mp4Tree {
  import opened Bytes
  import opened Mp4Boxes

  /** How a header gives the size: 32 bits, 64 bits, or "to the end of the buffer". */
  datatype HdrKind = Short | Long | ToEnd

  /** A box: its own fields and then its children. A box nobody looks into keeps all in `fixed`. */
  datatype Tree = Tree(kind: HdrKind, typ: FourCc, fixed: seq<byte>, kids: Forest)

  datatype Forest = Nil | Cons(head: Tree, tail: Forest)

  function HdrLen(kind: HdrKind): nat {
    if kind == Long then 16 else 8
  }

  function Size(t: Tree): (n: nat)
    ensures n >= 8
  {
    HdrLen(t.kind) + |t.fixed| + SizeAll(t.kids)
  }

  function SizeAll(f: Forest): nat {
    match f
    case Nil => 0
    case Cons(h, rest) => Size(h) + SizeAll(rest)
  }

  function BoxOf(t: Tree, pos: nat): Box {
    Box(pos, Size(t), HdrLen(t.kind), t.typ)
  }

  /** Where the children of a box at pos begin. */
  function KidsPos(t: Tree, pos: nat): nat {
    pos + HdrLen(t.kind) + |t.fixed|
  }

  ghost predicate KindIs(data: seq<byte>, pos: nat, kind: HdrKind) {
    && pos + 4 <= |data|
    && (kind == Long <==> Read32(data, pos) == 1)
    && (kind == ToEnd <==> Read32(data, pos) == 0)
  }

  ghost predicate HeaderIs(data: seq<byte>, pos: nat, kind: HdrKind, size: nat, typ: FourCc) {
    ReadBox(data, pos) == Some(Box(pos, size, HdrLen(kind), typ)) && KindIs(data, pos, kind)
  }

  ghost predicate Parses(data: seq<byte>, pos: nat, t: Tree)
    decreases t
  {
    && HeaderIs(data, pos, t.kind, Size(t), t.typ)
    && data[pos + HdrLen(t.kind)..KidsPos(t, pos)] == t.fixed
    && ParsesAll(data, KidsPos(t, pos), t.kids)
  }

  ghost predicate ParsesAll(data: seq<byte>, pos: nat, f: Forest)
    decreases f
  {
    match f
    case Nil => true
    case Cons(h, rest) => Parses(data, pos, h) && ParsesAll(data, pos + Size(h), rest)
  }

  // ----- moving bytes -----

  /** n bytes of data at pos stand in out at pos'. */
  ghost predicate Same(data: seq<byte>, pos: nat, out: seq<byte>, pos': nat, n: nat) {
    pos + n <= |data| && pos' + n <= |out| && data[pos..pos + n] == out[pos'..pos' + n]
  }

  lemma SamePart(data: seq<byte>, pos: nat, out: seq<byte>, pos': nat, n: nat, from: nat, m: nat)
    requires Same(data, pos, out, pos', n) && from + m <= n
    ensures Same(data, pos + from, out, pos' + from, m)
  {
    SliceOfSlice(data, pos, pos + n, from, from + m);
    SliceOfSlice(out, pos', pos' + n, from, from + m);
  }

  ghost predicate HasToEnd(t: Tree)
    decreases t
  {
    t.kind == ToEnd || HasToEndAll(t.kids)
  }

  ghost predicate HasToEndAll(f: Forest)
    decreases f
  {
    f.Cons? && (HasToEnd(f.head) || HasToEndAll(f.tail))
  }

  lemma HeaderMoved(data: seq<byte>, pos: nat, out: seq<byte>, pos': nat, kind: HdrKind, size: nat, typ: FourCc)
    requires HeaderIs(data, pos, kind, size, typ) && Same(data, pos, out, pos', HdrLen(kind))
    requires pos' + size <= |out| && (kind == ToEnd ==> |out| - pos' == |data| - pos)
    ensures HeaderIs(out, pos', kind, size, typ)
  {
    SamePart(data, pos, out, pos', HdrLen(kind), 0, 4);
    SamePart(data, pos, out, pos', HdrLen(kind), 4, 4);
    if kind == Long {
      SamePart(data, pos, out, pos', HdrLen(kind), 8, 8);
    }
  }

  /** Bytes that parse as a tree parse as that tree wherever they are moved, as long as no
      to-the-end box in it loses or gains bytes after it. */
  lemma {:induction false} Moved(data: seq<byte>, pos: nat, out: seq<byte>, pos': nat, t: Tree)
    requires Parses(data, pos, t) && Same(data, pos, out, pos', Size(t))
    requires HasToEnd(t) ==> |out| - pos' == |data| - pos
    ensures Parses(out, pos', t)
    decreases t
  {
    hide Same, HeaderIs;
    var h := HdrLen(t.kind);
    SamePart(data, pos, out, pos', Size(t), 0, h);
    HeaderMoved2(data, pos, out, pos', t);
    SamePart(data, pos, out, pos', Size(t), h, |t.fixed|);
    SamePart(data, pos, out, pos', Size(t), h + |t.fixed|, SizeAll(t.kids));
    MovedAll(data, KidsPos(t, pos), out, KidsPos(t, pos'), t.kids);
    SameSlices(data, pos + h, out, pos' + h, |t.fixed|);
  }

  lemma HeaderMoved2(data: seq<byte>, pos: nat, out: seq<byte>, pos': nat, t: Tree)
    requires HeaderIs(data, pos, t.kind, Size(t), t.typ) && Same(data, pos, out, pos', Size(t))
    requires HasToEnd(t) ==> |out| - pos' == |data| - pos
    ensures HeaderIs(out, pos', t.kind, Size(t), t.typ)
  {
    hide HeaderIs;
    SamePart(data, pos, out, pos', Size(t), 0, HdrLen(t.kind));
    HeaderMoved(data, pos, out, pos', t.kind, Size(t), t.typ);
  }

  lemma SameSlices(data: seq<byte>, pos: nat, out: seq<byte>, pos': nat, n: nat)
    requires Same(data, pos, out, pos', n)
    ensures pos + n <= |data| && pos' + n <= |out| && data[pos..pos + n] == out[pos'..pos' + n]
  {
  }

  lemma {:induction false} MovedAll(data: seq<byte>, pos: nat, out: seq<byte>, pos': nat, f: Forest)
    requires ParsesAll(data, pos, f) && Same(data, pos, out, pos', SizeAll(f))
    requires HasToEndAll(f) ==> |out| - pos' == |data| - pos
    ensures ParsesAll(out, pos', f)
    decreases f
  {
    hide Same, Parses;
    if f.Cons? {
      SamePart(data, pos, out, pos', SizeAll(f), 0, Size(f.head));
      SamePart(data, pos, out, pos', SizeAll(f), Size(f.head), SizeAll(f.tail));
      Moved(data, pos, out, pos', f.head);
      MovedAll(data, pos + Size(f.head), out, pos' + Size(f.head), f.tail);
    }
  }

  /** A tree holding a to-the-end box stops where the buffer does. */
  lemma {:induction false} EndsAtEnd(data: seq<byte>, pos: nat, t: Tree)
    requires Parses(data, pos, t)
    ensures pos + Size(t) <= |data|
    ensures HasToEnd(t) ==> pos + Size(t) == |data|
    decreases t
  {
    if t.kind != ToEnd && HasToEndAll(t.kids) {
      EndsAtEndAll(data, KidsPos(t, pos), t.kids);
    }
  }

  lemma {:induction false} EndsAtEndAll(data: seq<byte>, pos: nat, f: Forest)
    requires ParsesAll(data, pos, f)
    ensures f.Cons? ==> pos + SizeAll(f) <= |data|
    ensures HasToEndAll(f) ==> pos + SizeAll(f) == |data|
    decreases f
  {
    if f.Cons? {
      EndsAtEnd(data, pos, f.head);
      EndsAtEndAll(data, pos + Size(f.head), f.tail);
    }
  }

  // ----- children by index -----

  function Count(f: Forest): nat {
    match f
    case Nil => 0
    case Cons(_, rest) => 1 + Count(rest)
  }

  function KidAt(f: Forest, i: nat): (t: Tree)
    requires i < Count(f)
    ensures t < f
  {
    if i == 0 then f.head else KidAt(f.tail, i - 1)
  }

  /** The bytes in front of the i-th child. */
  function Before(f: Forest, i: nat): (n: nat)
    requires i <= Count(f)
    ensures n <= SizeAll(f)
    ensures i < Count(f) ==> n + Size(KidAt(f, i)) <= SizeAll(f)
  {
    if i == 0 then 0 else Size(f.head) + Before(f.tail, i - 1)
  }

  function ReplaceAt(f: Forest, i: nat, t: Tree): (r: Forest)
    requires i < Count(f)
    ensures Count(r) == Count(f)
    ensures SizeAll(r) == SizeAll(f) - Size(KidAt(f, i)) + Size(t)
  {
    if i == 0 then Cons(t, f.tail) else Cons(f.head, ReplaceAt(f.tail, i - 1, t))
  }

  /** The index of the first child of this type, or the number of children. */
  function FirstIndex(f: Forest, typ: FourCc): (i: nat)
    ensures i <= Count(f)
    ensures i < Count(f) ==> KidAt(f, i).typ == typ
  {
    if f.Nil? || f.head.typ == typ then 0 else 1 + FirstIndex(f.tail, typ)
  }

  lemma {:induction false} KidParses(data: seq<byte>, pos: nat, f: Forest, i: nat)
    requires ParsesAll(data, pos, f) && i < Count(f)
    ensures Parses(data, pos + Before(f, i), KidAt(f, i))
    decreases f
  {
    hide Parses;
    if i > 0 {
      KidParses(data, pos + Size(f.head), f.tail, i - 1);
    }
  }

  /** The walk over children finds the first one of the type. */
  lemma {:induction false} WalkFinds(data: seq<byte>, pos: nat, f: Forest, typ: FourCc)
    requires ParsesAll(data, pos, f)
    ensures var i := FirstIndex(f, typ);
            FindChild(data, pos, pos + SizeAll(f), typ)
            == if i < Count(f) then Some(BoxOf(KidAt(f, i), pos + Before(f, i))) else None
    decreases f
  {
    hide ReadBox;
    if f.Cons? {
      WalkFinds(data, pos + Size(f.head), f.tail, typ);
    }
  }

  // ----- one child replaced -----

  /** Replacing one child: what is in front stays, the child parses anew, what follows moves along. */
  lemma {:induction false} ReplacedParses(data: seq<byte>, out: seq<byte>, pos: nat, f: Forest, i: nat, t: Tree)
    requires ParsesAll(data, pos, f) && i < Count(f)
    requires Same(data, pos, out, pos, Before(f, i)) && Parses(out, pos + Before(f, i), t)
    requires var end := Before(f, i) + Size(KidAt(f, i));
             Same(data, pos + end, out, pos + Before(f, i) + Size(t), SizeAll(f) - end)
    requires |out| - Size(t) == |data| - Size(KidAt(f, i))
    ensures ParsesAll(out, pos, ReplaceAt(f, i, t))
    decreases f
  {
    hide Same, Parses;
    if i == 0 {
      MovedAll(data, pos + Size(f.head), out, pos + Size(t), f.tail);
    } else {
      var n := Size(f.head);
      SamePart(data, pos, out, pos, Before(f, i), 0, n);
      SamePart(data, pos, out, pos, Before(f, i), n, Before(f.tail, i - 1));
      FrontIsExplicit(data, pos, f, i);
      Moved(data, pos, out, pos, f.head);
      ReplacedParses(data, out, pos + n, f.tail, i - 1, t);
    }
  }

  lemma FrontIsExplicit(data: seq<byte>, pos: nat, f: Forest, i: nat)
    requires ParsesAll(data, pos, f) && 0 < i < Count(f)
    ensures !HasToEnd(f.head)
  {
    hide Parses;
    EndsAtEnd(data, pos, f.head);
    EndsAtEndAll(data, pos + Size(f.head), f.tail);
  }

  // ----- the same shape: only payload bytes differ -----

  ghost predicate SameShape(t: Tree, u: Tree)
    decreases t
  {
    t.kind == u.kind && t.typ == u.typ && |t.fixed| == |u.fixed| && SameShapeAll(t.kids, u.kids)
  }

  ghost predicate SameShapeAll(f: Forest, g: Forest)
    decreases f
  {
    match f
    case Nil => g.Nil?
    case Cons(h, rest) => g.Cons? && SameShape(h, g.head) && SameShapeAll(rest, g.tail)
  }

  lemma {:induction false} ShapeIsReflexive(t: Tree)
    ensures SameShape(t, t)
    decreases t
  {
    ShapeIsReflexiveAll(t.kids);
  }

  lemma {:induction false} ShapeIsReflexiveAll(f: Forest)
    ensures SameShapeAll(f, f)
    decreases f
  {
    if f.Cons? {
      ShapeIsReflexive(f.head);
      ShapeIsReflexiveAll(f.tail);
    }
  }

  lemma {:induction false} ShapeKeepsSize(t: Tree, u: Tree)
    requires SameShape(t, u)
    ensures Size(t) == Size(u)
    decreases t
  {
    ShapeKeepsSizeAll(t.kids, u.kids);
  }

  lemma {:induction false} ShapeKeepsSizeAll(f: Forest, g: Forest)
    requires SameShapeAll(f, g)
    ensures SizeAll(f) == SizeAll(g) && Count(f) == Count(g)
    decreases f
  {
    if f.Cons? {
      ShapeKeepsSize(f.head, g.head);
      ShapeKeepsSizeAll(f.tail, g.tail);
    }
  }

  lemma {:induction false} ShapeReplaced(f: Forest, i: nat, t: Tree)
    requires i < Count(f) && SameShape(KidAt(f, i), t)
    ensures SameShapeAll(f, ReplaceAt(f, i, t))
    decreases f
  {
    if i == 0 {
      ShapeIsReflexiveAll(f.tail);
    } else {
      ShapeIsReflexive(f.head);
      ShapeReplaced(f.tail, i - 1, t);
    }
  }

  lemma {:induction false} ShapeKids(f: Forest, g: Forest, i: nat, typ: FourCc)
    requires SameShapeAll(f, g)
    ensures Count(f) == Count(g) && FirstIndex(f, typ) == FirstIndex(g, typ)
    ensures i < Count(f) ==> SameShape(KidAt(f, i), KidAt(g, i)) && Before(f, i) == Before(g, i)
    decreases f
  {
    if f.Cons? {
      ShapeKeepsSize(f.head, g.head);
      ShapeKids(f.tail, g.tail, if i > 0 then i - 1 else 0, typ);
    }
  }

  lemma {:induction false} ShapeTransitive(t: Tree, u: Tree, v: Tree)
    requires SameShape(t, u) && SameShape(u, v)
    ensures SameShape(t, v)
    decreases t
  {
    ShapeTransitiveAll(t.kids, u.kids, v.kids);
  }

  lemma {:induction false} ShapeTransitiveAll(f: Forest, g: Forest, h: Forest)
    requires SameShapeAll(f, g) && SameShapeAll(g, h)
    ensures SameShapeAll(f, h)
    decreases f
  {
    if f.Cons? {
      ShapeTransitive(f.head, g.head, h.head);
      ShapeTransitiveAll(f.tail, g.tail, h.tail);
    }
  }

  lemma {:induction false} ReplaceAtOther(f: Forest, i: nat, t: Tree, j: nat, typ: FourCc)
    requires i < Count(f) && t.typ == KidAt(f, i).typ
    ensures FirstIndex(ReplaceAt(f, i, t), typ) == FirstIndex(f, typ)
    ensures j < Count(f) ==> KidAt(ReplaceAt(f, i, t), j) == if j == i then t else KidAt(f, j)
    ensures j <= i ==> Before(ReplaceAt(f, i, t), j) == Before(f, j)
    decreases f
  {
    if i > 0 {
      ReplaceAtOther(f.tail, i - 1, t, if j > 0 then j - 1 else 0, typ);
    }
  }

  // ----- paths -----

  ghost predicate ValidPath(t: Tree, path: seq<nat>)
    decreases |path|
  {
    path != [] ==> path[0] < Count(t.kids) && ValidPath(KidAt(t.kids, path[0]), path[1..])
  }

  function Sub(t: Tree, path: seq<nat>): Tree
    requires ValidPath(t, path)
    decreases |path|
  {
    if path == [] then t else Sub(KidAt(t.kids, path[0]), path[1..])
  }

  function KidPos(t: Tree, pos: nat, i: nat): nat
    requires i < Count(t.kids)
  {
    KidsPos(t, pos) + Before(t.kids, i)
  }

  function SubPos(t: Tree, pos: nat, path: seq<nat>): nat
    requires ValidPath(t, path)
    decreases |path|
  {
    if path == [] then pos else SubPos(KidAt(t.kids, path[0]), KidPos(t, pos, path[0]), path[1..])
  }

  /** The boxes from t down along the path. */
  function Chain(t: Tree, pos: nat, path: seq<nat>): (chain: seq<Box>)
    requires ValidPath(t, path)
    ensures |chain| == |path| + 1 && chain[0] == BoxOf(t, pos)
    ensures chain[|path|] == BoxOf(Sub(t, path), SubPos(t, pos, path))
    decreases |path|
  {
    if path == [] then [BoxOf(t, pos)]
    else [BoxOf(t, pos)] + Chain(KidAt(t.kids, path[0]), KidPos(t, pos, path[0]), path[1..])
  }

  function Explicit(kind: HdrKind): HdrKind {
    if kind == ToEnd then Short else kind
  }

  /** The tree with the box at the path replaced. With `grown`, the boxes above it got an explicit size. */
  function Replace(t: Tree, path: seq<nat>, u: Tree, grown: bool): (r: Tree)
    requires ValidPath(t, path)
    ensures path != [] ==> r.typ == t.typ && r.fixed == t.fixed && HdrLen(r.kind) == HdrLen(t.kind)
    ensures Size(r) == Size(t) + Size(u) - Size(Sub(t, path))
    decreases |path|
  {
    if path == [] then u
    else t.(kind := if grown then Explicit(t.kind) else t.kind,
            kids := ReplaceAt(t.kids, path[0], Replace(KidAt(t.kids, path[0]), path[1..], u, grown)))
  }

  /** One level of a rewrite: the header carries the size changed by delta, everything beside
      the i-th child is there, moved by delta behind it. */
  ghost predicate Level(data: seq<byte>, out: seq<byte>, pos: nat, t: Tree, i: nat, delta: int, grown: bool)
    requires i < Count(t.kids)
  {
    var kpos, n := KidPos(t, pos, i), Size(KidAt(t.kids, i));
    && Size(t) + delta >= 0 && kpos + n + delta >= 0
    && HeaderIs(out, pos, if grown then Explicit(t.kind) else t.kind, Size(t) + delta, t.typ)
    && Same(data, pos + HdrLen(t.kind), out, pos + HdrLen(t.kind), |t.fixed| + Before(t.kids, i))
    && Same(data, kpos + n, out, kpos + n + delta, SizeAll(t.kids) - Before(t.kids, i) - n)
  }

  lemma BoxBuilt(out: seq<byte>, pos: nat, t: Tree)
    requires HeaderIs(out, pos, t.kind, Size(t), t.typ) && KidsPos(t, pos) <= |out|
    requires out[pos + HdrLen(t.kind)..KidsPos(t, pos)] == t.fixed && ParsesAll(out, KidsPos(t, pos), t.kids)
    ensures Parses(out, pos, t)
  {
  }

  lemma BoxParts(data: seq<byte>, pos: nat, t: Tree)
    requires Parses(data, pos, t)
    ensures KidsPos(t, pos) <= |data| && data[pos + HdrLen(t.kind)..KidsPos(t, pos)] == t.fixed
    ensures ParsesAll(data, KidsPos(t, pos), t.kids)
  {
  }

  /** What a rewritten level leaves of the box. */
  lemma LevelParts(data: seq<byte>, out: seq<byte>, pos: nat, t: Tree, i: nat, delta: int, grown: bool)
    requires i < Count(t.kids) && Parses(data, pos, t) && Level(data, out, pos, t, i, delta, grown)
    ensures KidsPos(t, pos) <= |out| && out[pos + HdrLen(t.kind)..KidsPos(t, pos)] == t.fixed
    ensures Same(data, KidsPos(t, pos), out, KidsPos(t, pos), Before(t.kids, i))
  {
    hide Same, HeaderIs, ParsesAll;
    var start, n, b := pos + HdrLen(t.kind), |t.fixed|, Before(t.kids, i);
    SamePart(data, start, out, start, n + b, n, b);
    SamePart(data, start, out, start, n + b, 0, n);
    SameSlices(data, start, out, start, n);
  }

  lemma LevelParses(data: seq<byte>, out: seq<byte>, pos: nat, t: Tree, i: nat, kid: Tree, delta: int, grown: bool)
    requires i < Count(t.kids) && Parses(data, pos, t) && Level(data, out, pos, t, i, delta, grown)
    requires Size(kid) == Size(KidAt(t.kids, i)) + delta && |out| == |data| + delta
    requires Parses(out, KidPos(t, pos, i), kid)
    ensures Parses(out, pos, t.(kind := if grown then Explicit(t.kind) else t.kind, kids := ReplaceAt(t.kids, i, kid)))
  {
    hide Same, HeaderIs, Parses;
    LevelParts(data, out, pos, t, i, delta, grown);
    BoxParts(data, pos, t);
    ReplacedParses(data, out, KidsPos(t, pos), t.kids, i, kid);
    BoxBuilt(out, pos, t.(kind := if grown then Explicit(t.kind) else t.kind, kids := ReplaceAt(t.kids, i, kid)));
  }

  /** What must hold of the new buffer on the way to the replaced box. */
  ghost predicate Around(data: seq<byte>, out: seq<byte>, pos: nat, t: Tree, path: seq<nat>, delta: int, grown: bool)
    requires ValidPath(t, path)
    decreases |path|
  {
    path != [] ==>
      && Level(data, out, pos, t, path[0], delta, grown)
      && Around(data, out, KidPos(t, pos, path[0]), KidAt(t.kids, path[0]), path[1..], delta, grown)
  }

  lemma {:induction false} AroundParses(data: seq<byte>, out: seq<byte>, pos: nat, t: Tree, path: seq<nat>,
                                        u: Tree, delta: int, grown: bool)
    requires ValidPath(t, path) && Parses(data, pos, t)
    requires Around(data, out, pos, t, path, delta, grown) && |out| == |data| + delta
    requires Size(u) == Size(Sub(t, path)) + delta && Parses(out, SubPos(t, pos, path), u)
    ensures Parses(out, pos, Replace(t, path, u, grown))
    decreases |path|
  {
    hide Level;
    if path != [] {
      var kid, kpos := KidAt(t.kids, path[0]), KidPos(t, pos, path[0]);
      KidParses(data, KidsPos(t, pos), t.kids, path[0]);
      AroundParses(data, out, kpos, kid, path[1..], u, delta, grown);
      LevelParses(data, out, pos, t, path[0], Replace(kid, path[1..], u, grown), delta, grown);
    }
  }
}
