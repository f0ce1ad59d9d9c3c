/**
 As which tree a moov parses once a metadata box is appended to it, when boxes in it have size field 0:
 the tree in which the last such box takes in the new one, or another, or none.
 */
module Mp4Tiling {
  import opened Bytes
  import opened Mp4Boxes
  import opened Mp4Edits
  import opened Mp4Tree
  import opened Mp4Shift
  import opened Mp4Splice
  import opened Mp4Surgery
  import opened Mp4Normalize
  import opened Mp4Metadata
  import opened Mp4Append

  // ----- the tree that takes in the new box -----

  function ReplaceLast(f: Forest, t: Tree): (r: Forest)
    requires f.Cons?
    ensures r.Cons? && SizeAll(r) == SizeAll(f) - Size(Last(f)) + Size(t)
  {
    if f.tail.Nil? then Cons(t, Nil) else Cons(f.head, ReplaceLast(f.tail, t))
  }

  lemma {:induction false} LastSmaller(f: Forest)
    requires f.Cons?
    ensures Last(f) < f && Size(Last(f)) <= SizeAll(f)
    decreases f
  {
    if f.tail.Cons? {
      LastSmaller(f.tail);
    }
  }

  /** A box of size field 0 with the new box at its end: inside the last box in it that runs to the end too,
      or as its last child, or, in a box nobody looks into, as bytes of its own. */
  ghost function Taken(t: Tree, payload: seq<byte>): (r: Tree)
    ensures r.kind == t.kind && r.typ == t.typ && Size(r) == Size(t) + 8 + |payload|
    decreases t
  {
    if t.kids.Cons? && HasToEnd(Last(t.kids)) then
      LastSmaller(t.kids);
      t.(kids := ReplaceLast(t.kids, Taken(Last(t.kids), payload)))
    else if t.kids.Cons? || Walkable(t.typ) then t.(kids := Append(t.kids, AtomTree(UDTA, payload)))
    else t.(fixed := t.fixed + Atom(UDTA, payload))
  }

  /** The new box taken in by the last child, or the last child itself. */
  ghost function KidsWith(f: Forest, payload: seq<byte>): (r: Forest)
    ensures SizeAll(r) == SizeAll(f) + 8 + |payload|
  {
    if f.Cons? && HasToEnd(Last(f)) then ReplaceLast(f, Taken(Last(f), payload))
    else Append(f, AtomTree(UDTA, payload))
  }

  /** The moov after the append. */
  ghost function AppendedTree(moov: Tree, payload: seq<byte>, base: nat): Tree {
    moov.(kind := Explicit(moov.kind),
          kids := KidsWith(ShiftTraks(moov.kids, base + Size(moov), 8 + |payload|), payload))
  }

  /** From this box down to the last one that runs to the end, every box runs to the end. */
  ghost predicate OpenDown(t: Tree)
    decreases t
  {
    && t.kind == ToEnd
    && (t.kids.Cons? && HasToEnd(Last(t.kids)) ==>
          assert Last(t.kids) < t by { LastSmaller(t.kids); }
          OpenDown(Last(t.kids)))
  }

  /** Only boxes of size field 0 stand above the last box of size field 0. */
  ghost predicate OpenAbove(f: Forest) {
    f.Cons? && HasToEnd(Last(f)) ==> OpenDown(Last(f))
  }

  // ----- the longer buffer parses as that tree -----

  lemma OpenHeader(s: seq<byte>, out: seq<byte>, from: nat, payload: seq<byte>, pos: nat, t: Tree)
    requires Longer(s, out, from, payload) && from <= pos && Parses(s, pos, t) && t.kind == ToEnd
    ensures pos + Size(t) == |s| && HeaderIs(out, pos, ToEnd, |out| - pos, t.typ)
  {
    hide ReadBox, Longer, Same;
    LongerRead(s, out, from, payload, pos, t);
    LongerPart(s, out, from, payload, pos, 4);
    SameSlices(s, pos, out, pos, 4);
  }

  lemma {:induction false} OpenIsLast(s: seq<byte>, pos: nat, f: Forest)
    requires ParsesAll(s, pos, f)
    ensures HasToEndAll(f) <==> f.Cons? && HasToEnd(Last(f))
    decreases f
  {
    hide Parses, HasToEnd;
    if f.Cons? && f.tail.Cons? {
      FrontIsExplicit(s, pos, f, 1);
      OpenIsLast(s, pos + Size(f.head), f.tail);
    }
  }

  lemma FrontLonger(s: seq<byte>, out: seq<byte>, from: nat, payload: seq<byte>, pos: nat, f: Forest)
    requires Longer(s, out, from, payload) && from <= pos && ParsesAll(s, pos, f) && f.Cons? && !HasToEnd(f.head)
    ensures Parses(out, pos, f.head)
  {
    hide Longer, Parses, HasToEnd;
    EndsAtEnd(s, pos, f.head);
    LongerPart(s, out, from, payload, pos, Size(f.head));
    Moved(s, pos, out, pos, f.head);
  }

  lemma {:induction false} KidsLonger(s: seq<byte>, out: seq<byte>, from: nat, payload: seq<byte>, pos: nat, f: Forest)
    requires Longer(s, out, from, payload) && from <= pos && ParsesAll(s, pos, f) && !HasToEndAll(f)
    requires pos + SizeAll(f) == |s|
    ensures ParsesAll(out, pos, Append(f, AtomTree(UDTA, payload)))
    decreases f
  {
    hide Longer, Parses, HasToEnd, AtomTree;
    AtomThere(s, out, from, payload);
    if f.Cons? {
      FrontLonger(s, out, from, payload, pos, f);
      KidsLonger(s, out, from, payload, pos + Size(f.head), f.tail);
    } else {
      assert ParsesAll(out, |s| + Size(AtomTree(UDTA, payload)), Nil);
    }
  }

  lemma {:induction false} LastTaken(s: seq<byte>, out: seq<byte>, from: nat, payload: seq<byte>, pos: nat, f: Forest)
    requires Longer(s, out, from, payload) && from <= pos && ParsesAll(s, pos, f) && f.Cons? && OpenDown(Last(f))
    ensures ParsesAll(out, pos, ReplaceLast(f, Taken(Last(f), payload)))
    decreases f, 0
  {
    hide Longer, Parses, HasToEnd, Taken, OpenDown;
    if f.tail.Nil? {
      TakenParses(s, out, from, payload, pos, f.head);
      assert ParsesAll(out, pos + Size(Taken(f.head, payload)), Nil);
    } else {
      FrontIsExplicit(s, pos, f, 1);
      FrontLonger(s, out, from, payload, pos, f);
      LastTaken(s, out, from, payload, pos + Size(f.head), f.tail);
    }
  }

  lemma {:induction false} TakenParses(s: seq<byte>, out: seq<byte>, from: nat, payload: seq<byte>, pos: nat, t: Tree)
    requires Longer(s, out, from, payload) && from <= pos && Parses(s, pos, t) && OpenDown(t)
    ensures Parses(out, pos, Taken(t, payload))
    decreases t
  {
    hide Longer, Parses, HasToEnd, HasToEndAll, HeaderIs, Atom, AtomTree, OpenDown, Taken;
    var k, u := KidsPos(t, pos), Taken(t, payload);
    OpenKind(t);
    OpenHeader(s, out, from, payload, pos, t);
    BoxParts(s, pos, t);
    OpenIsLast(s, k, t.kids);
    TakenIs(t, payload);
    LongerPart(s, out, from, payload, pos + 8, |t.fixed|);
    SameSlices(s, pos + 8, out, pos + 8, |t.fixed|);
    if HasToEndAll(t.kids) {
      LastTaken(s, out, from, payload, k, t.kids);
    } else if u.fixed == t.fixed {
      KidsLonger(s, out, from, payload, k, t.kids);
    } else {
      TailOf(s, out, from, payload);
      assert out[pos + 8..|out|] == out[pos + 8..|s|] + out[|s|..];
      assert ParsesAll(out, KidsPos(u, pos), Nil);
    }
    BoxBuilt(out, pos, u);
  }

  lemma OpenKind(t: Tree)
    requires OpenDown(t)
    ensures t.kind == ToEnd && (t.kids.Cons? && HasToEnd(Last(t.kids)) ==> OpenDown(Last(t.kids)))
  {
  }

  /** The three cases. */
  lemma TakenIs(t: Tree, payload: seq<byte>)
    ensures Size(Taken(t, payload)) == Size(t) + 8 + |payload|
    ensures Taken(t, payload) ==
            if t.kids.Cons? && HasToEnd(Last(t.kids)) then t.(kids := ReplaceLast(t.kids, Taken(Last(t.kids), payload)))
            else if t.kids.Cons? || Walkable(t.typ) then t.(kids := Append(t.kids, AtomTree(UDTA, payload)))
            else t.(fixed := t.fixed + Atom(UDTA, payload))
  {
  }

  /** A box with an explicit end above one without: its own size field does not grow. */
  lemma {:induction false} TakenOnly(s: seq<byte>, out: seq<byte>, from: nat, payload: seq<byte>, pos: nat, t: Tree)
    requires Longer(s, out, from, payload) && from <= pos && Parses(s, pos, t)
    requires Parses(out, pos, Taken(t, payload))
    ensures OpenDown(t)
    decreases t
  {
    hide Longer, Parses, HasToEnd, Taken, ReadBox;
    LongerRead(s, out, from, payload, pos, t);
    TakenIs(t, payload);
    BoxRead(out, pos, Taken(t, payload));
    if t.kids.Cons? && HasToEnd(Last(t.kids)) {
      BoxParts(s, pos, t);
      BoxParts(out, pos, Taken(t, payload));
      LastOnly(s, out, from, payload, KidsPos(t, pos), t.kids);
    }
  }

  lemma {:induction false} LastOnly(s: seq<byte>, out: seq<byte>, from: nat, payload: seq<byte>, pos: nat, f: Forest)
    requires Longer(s, out, from, payload) && from <= pos && ParsesAll(s, pos, f) && f.Cons?
    requires ParsesAll(out, pos, ReplaceLast(f, Taken(Last(f), payload)))
    ensures OpenDown(Last(f))
    decreases f, 0
  {
    hide Longer, Parses, Taken, OpenDown;
    if f.tail.Nil? {
      TakenOnly(s, out, from, payload, pos, f.head);
    } else {
      LastOnly(s, out, from, payload, pos + Size(f.head), f.tail);
    }
  }

  // ----- what depends on the shape alone -----

  lemma {:induction false} ShapeLastBox(f: Forest, g: Forest)
    requires SameShapeAll(f, g) && f.Cons?
    ensures g.Cons? && SameShape(Last(f), Last(g))
    decreases f
  {
    if f.tail.Cons? {
      ShapeLastBox(f.tail, g.tail);
    }
  }

  lemma {:induction false} ShapeOpenDown(t: Tree, u: Tree)
    requires SameShape(t, u)
    ensures OpenDown(t) == OpenDown(u)
    decreases t
  {
    hide HasToEnd;
    if t.kids.Cons? {
      LastSmaller(t.kids);
      ShapeLastBox(t.kids, u.kids);
      ShapeToEnd(Last(t.kids), Last(u.kids));
      ShapeOpenDown(Last(t.kids), Last(u.kids));
    }
  }

  lemma ShapeOpenAbove(f: Forest, g: Forest)
    requires SameShapeAll(f, g)
    ensures OpenAbove(f) == OpenAbove(g)
  {
    hide HasToEnd, OpenDown;
    if f.Cons? {
      ShapeLastBox(f, g);
      ShapeToEnd(Last(f), Last(g));
      ShapeOpenDown(Last(f), Last(g));
    }
  }

  lemma {:induction false} ReplaceLastShaped(f: Forest, t: Tree)
    requires ShapedAll(f) && f.Cons? && Shaped(t)
    ensures ShapedAll(ReplaceLast(f, t))
    decreases f
  {
    hide Shaped;
    if f.tail.Cons? {
      ReplaceLastShaped(f.tail, t);
    }
  }

  lemma {:induction false} LastShaped(f: Forest)
    requires ShapedAll(f) && f.Cons?
    ensures Shaped(Last(f))
    decreases f
  {
    if f.tail.Cons? {
      LastShaped(f.tail);
    }
  }

  lemma {:induction false} TakenShaped(t: Tree, payload: seq<byte>)
    requires Shaped(t)
    ensures Shaped(Taken(t, payload))
    decreases t
  {
    hide HasToEnd;
    AtomShaped(payload);
    if t.kids.Cons? {
      if HasToEnd(Last(t.kids)) {
        LastSmaller(t.kids);
        LastShaped(t.kids);
        TakenShaped(Last(t.kids), payload);
        ReplaceLastShaped(t.kids, Taken(Last(t.kids), payload));
      } else {
        AppendShaped(t.kids, AtomTree(UDTA, payload));
      }
    } else {
      AppendShaped(Nil, AtomTree(UDTA, payload));
    }
  }

  // ----- the moov after an append -----

  lemma AppendedTreeIs(s: seq<byte>, out: seq<byte>, m: Tree, payload: seq<byte>)
    requires IsMoov(s, m) && Longer(s, out, HdrLen(m.kind), payload) && HeaderIs(out, 0, Explicit(m.kind), |out|, MOOV)
    ensures IsMoov(out, m.(kind := Explicit(m.kind), kids := KidsWith(m.kids, payload))) <==> OpenAbove(m.kids)
  {
    hide Longer, Parses, HeaderIs, HasToEnd, Taken, OpenDown, Shaped, AtomTree, HasToEndAll;
    var r, h := m.(kind := Explicit(m.kind), kids := KidsWith(m.kids, payload)), HdrLen(m.kind);
    AppendedMoov(s, m);
    MoovEmpty(s, m);
    LongerPart(s, out, h, payload, h, 0);
    OpenIsLast(s, h, m.kids);
    AppendedShaped(m, payload);
    if m.kids.Cons? && HasToEnd(Last(m.kids)) {
      if OpenDown(Last(m.kids)) {
        LastTaken(s, out, h, payload, h, m.kids);
        BoxBuilt(out, 0, r);
      } else if IsMoov(out, r) {
        BoxParts(out, 0, r);
        LastOnly(s, out, h, payload, h, m.kids);
      }
    } else {
      KidsLonger(s, out, h, payload, h, m.kids);
      BoxBuilt(out, 0, r);
    }
  }

  lemma MoovEmpty(s: seq<byte>, m: Tree)
    requires IsMoov(s, m)
    ensures m.fixed == [] && m.typ == MOOV && Size(m) == HdrLen(m.kind) + SizeAll(m.kids) == |s|
  {
  }

  lemma KidsWithShaped(f: Forest, payload: seq<byte>)
    requires ShapedAll(f)
    ensures ShapedAll(KidsWith(f, payload))
  {
    hide HasToEnd, Taken, Shaped;
    AtomShaped(payload);
    if f.Cons? && HasToEnd(Last(f)) {
      LastShaped(f);
      TakenShaped(Last(f), payload);
      ReplaceLastShaped(f, Taken(Last(f), payload));
    } else {
      AppendShaped(f, AtomTree(UDTA, payload));
    }
  }

  lemma AppendedShaped(m: Tree, payload: seq<byte>)
    requires Shaped(m) && m.typ == MOOV
    ensures var r := m.(kind := Explicit(m.kind), kids := KidsWith(m.kids, payload));
            Shaped(r) && Size(r) == Size(m) + 8 + |payload|
  {
    hide KidsWith;
    KidsWithShaped(m.kids, payload);
  }

  /** After an append the moov parses as the tree in which the last box of size field 0, if there is one,
      takes in the new box, exactly if no box with an explicit size stands above that one below the moov. */
  lemma AppendedParsesIff(data: seq<byte>, moov: Tree, payload: seq<byte>, base: nat)
    requires IsMoov(data, moov) && !HasUdta(moov) && 8 + |payload| < 0x1_0000_0000
    requires PathFits(moov, [], 8 + |payload|)
    ensures IsMoov(WithUdta(data, base, Atom(UDTA, payload)), AppendedTree(moov, payload, base))
            <==> OpenAbove(moov.kids)
  {
    hide IsMoov, WithUdta, Atom, ShiftTraks, Longer, HeaderIs, PathFits, OpenAbove, Size, HasToEnd;
    var s := Appended(data, moov, payload, base);
    var m := ShiftMoov(moov, base + Size(moov), 8 + |payload|);
    ShiftTraksShape(moov.kids, base + Size(moov), 8 + |payload|);
    ShapeOpenAbove(moov.kids, m.kids);
    AppendedTreeIs(s, WithUdta(data, base, Atom(UDTA, payload)), m, payload);
  }

  // ----- when any tree is left -----

  /** The children of a box with an explicit end, as far down as the walks look: none of them runs to the
      end of the buffer. */
  ghost predicate Sealed(f: Forest)
    decreases f
  {
    f.Cons? ==>
      var l := Last(f);
      LastSmaller(f);
      l.kind != ToEnd && (Walkable(l.typ) ==> Sealed(l.kids))
  }

  /** The children of a box that runs to the end: no box the walks look into both has an explicit end
      and a child that runs to the end. */
  ghost predicate Tileable(f: Forest)
    decreases f
  {
    f.Cons? ==>
      var l := Last(f);
      LastSmaller(f);
      Walkable(l.typ) ==> if l.kind == ToEnd then Tileable(l.kids) else Sealed(l.kids)
  }

  lemma {:induction false} ShapeSealed(f: Forest, g: Forest)
    requires SameShapeAll(f, g)
    ensures Sealed(f) == Sealed(g)
    decreases f
  {
    if f.Cons? {
      LastSmaller(f);
      ShapeLastBox(f, g);
      ShapeSealed(Last(f).kids, Last(g).kids);
    }
  }

  lemma {:induction false} ShapeTileable(f: Forest, g: Forest)
    requires SameShapeAll(f, g)
    ensures Tileable(f) == Tileable(g)
    decreases f
  {
    hide Sealed;
    if f.Cons? {
      LastSmaller(f);
      ShapeLastBox(f, g);
      ShapeSealed(Last(f).kids, Last(g).kids);
      ShapeTileable(Last(f).kids, Last(g).kids);
    }
  }

  /** A box nobody looks into is its header and its bytes, whatever they are. */
  lemma LeafBuilt(out: seq<byte>, pos: nat, kind: HdrKind, size: nat, typ: FourCc) returns (t: Tree)
    requires HeaderIs(out, pos, kind, size, typ) && HdrLen(kind) <= size && !Walkable(typ)
    ensures Parses(out, pos, t) && Shaped(t) && Size(t) == size
  {
    hide ReadBox, KindIs;
    assert pos + size <= |out| by {
      HeaderInside(out, pos, kind, size, typ);
    }
    t := Tree(kind, typ, out[pos + HdrLen(kind)..pos + size], Nil);
    assert SizeAll(t.kids) == 0 && ParsesAll(out, KidsPos(t, pos), Nil) && ShapedAll(Nil);
    assert Size(t) == size;
  }

  lemma HeaderInside(out: seq<byte>, pos: nat, kind: HdrKind, size: nat, typ: FourCc)
    requires HeaderIs(out, pos, kind, size, typ)
    ensures pos + size <= |out| && HdrLen(kind) <= size
  {
  }

  lemma ClosedHeader(s: seq<byte>, out: seq<byte>, from: nat, payload: seq<byte>, pos: nat, t: Tree)
    requires Longer(s, out, from, payload) && from <= pos && Parses(s, pos, t) && t.kind != ToEnd
    ensures HeaderIs(out, pos, t.kind, Size(t), t.typ)
  {
    hide Longer, Same, HasToEnd, ReadBox;
    EndsAtEnd(s, pos, t);
    LongerPart(s, out, from, payload, pos, HdrLen(t.kind));
    HeaderMoved(s, pos, out, pos, t.kind, Size(t), t.typ);
  }

  lemma FixedLonger(s: seq<byte>, out: seq<byte>, from: nat, payload: seq<byte>, pos: nat, t: Tree)
    requires Longer(s, out, from, payload) && from <= pos && Parses(s, pos, t)
    ensures KidsPos(t, pos) <= |s| <= |out| && out[pos + HdrLen(t.kind)..KidsPos(t, pos)] == t.fixed
  {
    hide Longer, Same, HasToEnd, HeaderIs, ParsesAll;
    BoxParts(s, pos, t);
    LongerPart(s, out, from, payload, pos + HdrLen(t.kind), |t.fixed|);
    SameSlices(s, pos + HdrLen(t.kind), out, pos + HdrLen(t.kind), |t.fixed|);
  }

  lemma SwapKids(t: Tree, g: Forest)
    requires Shaped(t) && Walkable(t.typ) && ShapedAll(g)
    ensures Shaped(t.(kids := g)) && Size(t.(kids := g)) == HdrLen(t.kind) + |t.fixed| + SizeAll(g)
  {
  }

  lemma TwoForest(out: seq<byte>, pos: nat, h: Tree, g: Forest)
    requires Parses(out, pos, h) && Shaped(h) && ParsesAll(out, pos + Size(h), g) && ShapedAll(g)
    ensures ParsesAll(out, pos, Cons(h, g)) && ShapedAll(Cons(h, g)) && SizeAll(Cons(h, g)) == Size(h) + SizeAll(g)
  {
  }

  lemma NoForest(out: seq<byte>, pos: nat)
    ensures ParsesAll(out, pos, Nil) && ShapedAll(Nil) && SizeAll(Nil) == 0
  {
  }

  /** Inside a box with an explicit end some children tile it as before. */
  lemma {:induction false} BuildSealed(s: seq<byte>, out: seq<byte>, from: nat, payload: seq<byte>, pos: nat, f: Forest)
    returns (g: Forest)
    requires Longer(s, out, from, payload) && from <= pos && ParsesAll(s, pos, f) && ShapedAll(f) && Sealed(f)
    ensures ParsesAll(out, pos, g) && ShapedAll(g) && SizeAll(g) == SizeAll(f)
    decreases f
  {
    hide Longer, Parses, HasToEnd, Shaped, HeaderIs, ParsesAll, ShapedAll;
    if f.Nil? {
      NoForest(out, pos);
      g := Nil;
    } else {
      HeadOf(s, pos, f);
      var t, rest := f.head, Nil;
      if f.tail.Cons? {
        FrontIsExplicit(s, pos, f, 1);
        FrontLonger(s, out, from, payload, pos, f);
        rest := BuildSealed(s, out, from, payload, pos + Size(f.head), f.tail);
      } else {
        NoForest(out, pos + Size(f.head));
        t := BuildClosed(s, out, from, payload, pos, f.head);
      }
      TwoForest(out, pos, t, rest);
      g := Cons(t, rest);
    }
  }

  lemma HeadOf(s: seq<byte>, pos: nat, f: Forest)
    requires ParsesAll(s, pos, f) && f.Cons? && ShapedAll(f)
    ensures Parses(s, pos, f.head) && ParsesAll(s, pos + Size(f.head), f.tail) && Shaped(f.head) && ShapedAll(f.tail)
  {
  }

  lemma {:induction false} BuildClosed(s: seq<byte>, out: seq<byte>, from: nat, payload: seq<byte>, pos: nat, t: Tree)
    returns (u: Tree)
    requires Longer(s, out, from, payload) && from <= pos && Parses(s, pos, t) && Shaped(t) && t.kind != ToEnd
    requires Walkable(t.typ) ==> Sealed(t.kids)
    ensures Parses(out, pos, u) && Shaped(u) && Size(u) == Size(t)
    decreases t
  {
    hide Longer, Parses, Shaped, HeaderIs, ParsesAll, ShapedAll, Sealed, Walkable;
    ClosedHeader(s, out, from, payload, pos, t);
    HeaderInside(out, pos, t.kind, Size(t), t.typ);
    if Walkable(t.typ) {
      KidsOf(s, pos, t);
      FixedLonger(s, out, from, payload, pos, t);
      var g := BuildSealed(s, out, from, payload, KidsPos(t, pos), t.kids);
      u := t.(kids := g);
      SwapKids(t, g);
      BoxBuilt(out, pos, u);
    } else {
      u := LeafBuilt(out, pos, t.kind, Size(t), t.typ);
    }
  }

  lemma KidsOf(s: seq<byte>, pos: nat, t: Tree)
    requires Parses(s, pos, t) && Shaped(t)
    ensures ParsesAll(s, KidsPos(t, pos), t.kids) && ShapedAll(t.kids)
    ensures Size(t) == HdrLen(t.kind) + |t.fixed| + SizeAll(t.kids)
  {
  }

  /** Up to the end of the buffer some children tile it with the new box. */
  lemma {:induction false} BuildOpen(s: seq<byte>, out: seq<byte>, from: nat, payload: seq<byte>, pos: nat, f: Forest)
    returns (g: Forest)
    requires Longer(s, out, from, payload) && from <= pos && ParsesAll(s, pos, f) && ShapedAll(f) && Tileable(f)
    requires pos + SizeAll(f) == |s|
    ensures ParsesAll(out, pos, g) && ShapedAll(g) && SizeAll(g) == SizeAll(f) + 8 + |payload|
    decreases f
  {
    hide Longer, Parses, HasToEnd, Shaped, HeaderIs, ParsesAll, ShapedAll, Sealed, Walkable, AtomTree;
    AtomThere(s, out, from, payload);
    AtomShaped(payload);
    NoForest(out, |out|);
    TwoForest(out, |s|, AtomTree(UDTA, payload), Nil);
    if f.Nil? {
      g := Cons(AtomTree(UDTA, payload), Nil);
    } else {
      HeadOf(s, pos, f);
      var t, rest := f.head, Cons(AtomTree(UDTA, payload), Nil);
      if f.tail.Cons? {
        FrontIsExplicit(s, pos, f, 1);
        FrontLonger(s, out, from, payload, pos, f);
        rest := BuildOpen(s, out, from, payload, pos + Size(f.head), f.tail);
      } else if t.kind != ToEnd {
        t := BuildClosed(s, out, from, payload, pos, f.head);
      } else {
        t := BuildTaken(s, out, from, payload, pos, f.head);
        rest := Nil;
      }
      TwoForest(out, pos, t, rest);
      g := Cons(t, rest);
    }
  }

  lemma {:induction false} BuildTaken(s: seq<byte>, out: seq<byte>, from: nat, payload: seq<byte>, pos: nat, t: Tree)
    returns (u: Tree)
    requires Longer(s, out, from, payload) && from <= pos && Parses(s, pos, t) && Shaped(t) && t.kind == ToEnd
    requires Walkable(t.typ) ==> Tileable(t.kids)
    ensures Parses(out, pos, u) && Shaped(u) && Size(u) == Size(t) + 8 + |payload|
    decreases t
  {
    hide Longer, Parses, Shaped, HeaderIs, ParsesAll, ShapedAll, Tileable, Walkable;
    OpenHeader(s, out, from, payload, pos, t);
    LongerPart(s, out, from, payload, pos, 0);
    HeaderInside(out, pos, ToEnd, |out| - pos, t.typ);
    if Walkable(t.typ) {
      KidsOf(s, pos, t);
      FixedLonger(s, out, from, payload, pos, t);
      var g := BuildOpen(s, out, from, payload, KidsPos(t, pos), t.kids);
      u := t.(kids := g);
      SwapKids(t, g);
      BoxBuilt(out, pos, u);
    } else {
      u := LeafBuilt(out, pos, ToEnd, |out| - pos, t.typ);
    }
  }

  /** Whatever tiles a box with an explicit end in the longer buffer, none of its old children ran on. */
  lemma {:induction false} OnlySealed(s: seq<byte>, out: seq<byte>, from: nat, payload: seq<byte>, pos: nat,
                                      f: Forest, g: Forest)
    requires Longer(s, out, from, payload) && from <= pos && ParsesAll(s, pos, f) && ShapedAll(f)
    requires ParsesAll(out, pos, g) && ShapedAll(g) && SizeAll(g) == SizeAll(f)
    ensures Sealed(f)
    decreases f
  {
    hide Longer, Parses, HasToEnd, Shaped, HeaderIs, ParsesAll, ShapedAll, Walkable, ReadBox;
    if f.Cons? {
      HeadOf(s, pos, f);
      HeadOf(out, pos, g);
      LongerRead(s, out, from, payload, pos, f.head);
      LongerPart(s, out, from, payload, pos, 0);
      BoxRead(out, pos, g.head);
      if f.tail.Cons? {
        FrontIsExplicit(s, pos, f, 1);
        FrontKind(f.head);
        OnlySealed(s, out, from, payload, pos + Size(f.head), f.tail, g.tail);
      } else if Walkable(f.head.typ) {
        KidsOf(s, pos, f.head);
        KidsOf(out, pos, g.head);
        SameFixed(f.head, g.head);
        OnlySealed(s, out, from, payload, KidsPos(f.head, pos), f.head.kids, g.head.kids);
      }
    }
  }

  lemma FrontKind(t: Tree)
    requires !HasToEnd(t)
    ensures t.kind != ToEnd
  {
  }

  lemma SameFixed(t: Tree, u: Tree)
    requires Shaped(t) && Shaped(u) && t.typ == u.typ && Walkable(t.typ)
    ensures |t.fixed| == |u.fixed|
  {
  }

  lemma {:induction false} OnlyTileable(s: seq<byte>, out: seq<byte>, from: nat, payload: seq<byte>, pos: nat,
                                        f: Forest, g: Forest)
    requires Longer(s, out, from, payload) && from <= pos && ParsesAll(s, pos, f) && ShapedAll(f)
    requires ParsesAll(out, pos, g) && ShapedAll(g) && pos + SizeAll(f) == |s| && pos + SizeAll(g) == |out|
    ensures Tileable(f)
    decreases f
  {
    hide Longer, Parses, HasToEnd, Shaped, HeaderIs, ParsesAll, ShapedAll, Walkable, ReadBox, Sealed;
    if f.Cons? {
      HeadOf(s, pos, f);
      LongerPart(s, out, from, payload, pos, 0);
      HeadOf(out, pos, g);
      LongerRead(s, out, from, payload, pos, f.head);
      BoxRead(out, pos, g.head);
      if f.tail.Cons? {
        FrontIsExplicit(s, pos, f, 1);
        FrontKind(f.head);
        OnlyTileable(s, out, from, payload, pos + Size(f.head), f.tail, g.tail);
      } else if Walkable(f.head.typ) {
        KidsOf(s, pos, f.head);
        KidsOf(out, pos, g.head);
        SameFixed(f.head, g.head);
        if f.head.kind == ToEnd {
          OnlyTileable(s, out, from, payload, KidsPos(f.head, pos), f.head.kids, g.head.kids);
        } else {
          OnlySealed(s, out, from, payload, KidsPos(f.head, pos), f.head.kids, g.head.kids);
        }
      }
    }
  }

  /** After an append some tree tiles the moov exactly if no box the walks look into, below the moov, has
      an explicit end and a child that runs to the end of the buffer. */
  lemma TiledIff(data: seq<byte>, moov: Tree, payload: seq<byte>, base: nat)
    requires IsMoov(data, moov) && !HasUdta(moov) && 8 + |payload| < 0x1_0000_0000
    requires PathFits(moov, [], 8 + |payload|)
    ensures Tiled(WithUdta(data, base, Atom(UDTA, payload))) <==> Tileable(moov.kids)
  {
    hide IsMoov, WithUdta, Atom, ShiftTraks, Longer, HeaderIs, PathFits, Tileable, Size, Parses, ParsesAll, ShapedAll;
    var m, out := ShiftMoov(moov, base + Size(moov), 8 + |payload|), WithUdta(data, base, Atom(UDTA, payload));
    var h := HdrLen(moov.kind);
    var s := Appended(data, moov, payload, base);
    ShiftTraksShape(moov.kids, base + Size(moov), 8 + |payload|);
    ShapeTileable(moov.kids, m.kids);
    AppendedMoov(s, m);
    LongerPart(s, out, h, payload, h, 0);
    if Tileable(m.kids) {
      var g := BuildOpen(s, out, h, payload, h, m.kids);
      MoovBuilt(out, m.kind, g);
    }
    if t :| IsMoov(out, t) {
      AppendedMoov(out, t);
      SameHeader(out, m.kind, t);
      OnlyTileable(s, out, h, payload, h, m.kids, t.kids);
    }
  }

  lemma MoovBuilt(out: seq<byte>, kind: HdrKind, g: Forest)
    requires HeaderIs(out, 0, Explicit(kind), |out|, MOOV) && ParsesAll(out, HdrLen(kind), g) && ShapedAll(g)
    requires HdrLen(kind) + SizeAll(g) == |out|
    ensures Tiled(out)
  {
    hide HeaderIs, ParsesAll;
    var t := Tree(Explicit(kind), MOOV, [], g);
    BoxBuilt(out, 0, t);
    assert IsMoov(out, t);
  }

  lemma SameHeader(out: seq<byte>, kind: HdrKind, t: Tree)
    requires HeaderIs(out, 0, Explicit(kind), |out|, MOOV) && IsMoov(out, t)
    ensures HdrLen(t.kind) == HdrLen(kind)
  {
    hide ReadBox, Shaped;
    BoxRead(out, 0, t);
  }
}
