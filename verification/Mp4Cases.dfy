/**
 Every box tree can be written down as bytes that parse as it; and three small moovs for which an
 edit does not do what it is for, because a size field is 0.
 */
module Mp4Cases {
  import opened Bytes
  import opened Mp4Boxes
  import opened Mp4Edits
  import opened Mp4Tree
  import opened Mp4Shift
  import opened Mp4Splice
  import opened Mp4Surgery
  import opened Mp4Normalize
  import opened Mp4Samples
  import opened Mp4Config
  import opened Mp4Metadata
  import opened Mp4Append
  import opened Mp4Tiling

  // ----- trees as bytes -----

  /** Sizes and types that fit their fields, and size field 0 only for a box with nothing behind it. */
  ghost predicate Printable(t: Tree)
    decreases t
  {
    HeaderFits(t.kind, Size(t), t.typ) && PrintableAll(t.kids)
  }

  ghost predicate PrintableAll(f: Forest)
    decreases f
  {
    f.Cons? ==> Printable(f.head) && PrintableAll(f.tail) && (f.tail.Cons? ==> !HasToEnd(f.head))
  }

  predicate HeaderFits(kind: HdrKind, size: nat, typ: FourCc) {
    typ < 0x1_0000_0000 && size < if kind == Long then 0x1_0000_0000_0000_0000 else 0x1_0000_0000
  }

  function Header(kind: HdrKind, size: nat, typ: FourCc): (s: seq<byte>)
    ensures |s| == HdrLen(kind)
  {
    match kind
    case Short => ToBE(size, 4) + ToBE(typ, 4)
    case ToEnd => ToBE(0, 4) + ToBE(typ, 4)
    case Long => ToBE(1, 4) + ToBE(typ, 4) + ToBE(size, 8)
  }

  function Print(t: Tree): (s: seq<byte>)
    ensures |s| >= 8
    decreases t
  {
    Header(t.kind, Size(t), t.typ) + (t.fixed + PrintAll(t.kids))
  }

  function PrintAll(f: Forest): seq<byte>
    decreases f
  {
    match f
    case Nil => []
    case Cons(h, rest) => Print(h) + PrintAll(rest)
  }

  lemma {:induction false} PrintSize(t: Tree)
    requires PrintableAll(t.kids)
    ensures |Print(t)| == Size(t)
    decreases t
  {
    PrintSizeAll(t.kids);
  }

  lemma {:induction false} PrintSizeAll(f: Forest)
    requires PrintableAll(f)
    ensures |PrintAll(f)| == SizeAll(f)
    decreases f
  {
    if f.Cons? {
      PrintSize(f.head);
      PrintSizeAll(f.tail);
    }
  }

  /** The bytes of a tree parse as that tree, wherever they stand. */
  lemma {:induction false} PrintParses(out: seq<byte>, pos: nat, t: Tree)
    requires Printable(t) && pos + Size(t) <= |out| && out[pos..pos + Size(t)] == Print(t)
    requires HasToEnd(t) ==> pos + Size(t) == |out|
    ensures Parses(out, pos, t)
    decreases t
  {
    hide HeaderIs, HasToEnd, HasToEndAll, Print, PrintAll;
    PrintSizeAll(t.kids);
    PrintParts(out, pos, t);
    PrintParsesAll(out, KidsPos(t, pos), t.kids);
  }

  lemma PrintParts(out: seq<byte>, pos: nat, t: Tree)
    requires Printable(t) && pos + Size(t) <= |out| && out[pos..pos + Size(t)] == Print(t)
    requires HasToEnd(t) ==> pos + Size(t) == |out|
    requires |PrintAll(t.kids)| == SizeAll(t.kids)
    ensures HeaderIs(out, pos, t.kind, Size(t), t.typ) && out[pos + HdrLen(t.kind)..KidsPos(t, pos)] == t.fixed
    ensures out[KidsPos(t, pos)..pos + Size(t)] == PrintAll(t.kids)
    ensures HasToEndAll(t.kids) ==> pos + Size(t) == |out|
  {
    hide Header, PrintAll, SizeAll, HeaderIs;
    assert Size(t) == HdrLen(t.kind) + |t.fixed| + SizeAll(t.kids);
    ThreeFields(out, pos, Header(t.kind, Size(t), t.typ), t.fixed, PrintAll(t.kids));
    HeaderReads(out, pos, t.kind, Size(t), t.typ);
  }

  /** A header of any of the three forms is read as what it says. */
  lemma HeaderReads(out: seq<byte>, pos: nat, kind: HdrKind, size: nat, typ: FourCc)
    requires HeaderFits(kind, size, typ) && HdrLen(kind) <= size && pos + size <= |out|
    requires out[pos..pos + HdrLen(kind)] == Header(kind, size, typ) && (kind == ToEnd ==> pos + size == |out|)
    ensures HeaderIs(out, pos, kind, size, typ)
  {
    hide ToBE, FromBE;
    var field := if kind == ToEnd then 0 else if kind == Long then 1 else size;
    Pow256Values();
    FromToBE(field, 4);
    FromToBE(typ, 4);
    FromToBE(size, 8);
    var h := Header(kind, size, typ);
    SliceOfSlice(out, pos, pos + HdrLen(kind), 0, 4);
    SliceOfSlice(out, pos, pos + HdrLen(kind), 4, 8);
    assert h[0..4] == ToBE(field, 4) && h[4..8] == ToBE(typ, 4);
    if kind == Long {
      SliceOfSlice(out, pos, pos + 16, 8, 16);
      assert h[8..16] == ToBE(size, 8);
    }
  }

  lemma {:induction false} PrintParsesAll(out: seq<byte>, pos: nat, f: Forest)
    requires PrintableAll(f) && pos + SizeAll(f) <= |out| && out[pos..pos + SizeAll(f)] == PrintAll(f)
    requires HasToEndAll(f) ==> pos + SizeAll(f) == |out|
    ensures ParsesAll(out, pos, f)
    decreases f
  {
    hide Parses, Printable, Print;
    if f.Cons? {
      var n := Size(f.head);
      assert |Print(f.head)| == n by {
        KidsPrintable(f.head);
        PrintSize(f.head);
      }
      SliceOfSlice(out, pos, pos + SizeAll(f), 0, n);
      SliceOfSlice(out, pos, pos + SizeAll(f), n, SizeAll(f));
      assert PrintAll(f)[0..n] == Print(f.head) && PrintAll(f)[n..SizeAll(f)] == PrintAll(f.tail);
      PrintParses(out, pos, f.head);
      PrintParsesAll(out, pos + n, f.tail);
    }
  }

  lemma KidsPrintable(t: Tree)
    requires Printable(t)
    ensures PrintableAll(t.kids)
  {
  }

  // ----- a configuration box that says "to the end" -----

  const FREE: FourCc := 0x66726565  // "free"
  const DOWN: seq<nat> := [0, 0, 0, 0, 0, 0]

  /** Nothing but zeros: the fields of a version-0 entry, of stsd. */
  function Zeros(n: nat): seq<byte> {
    seq(n, _ => 0)
  }

  function OneKid(typ: FourCc, fixed: seq<byte>, kid: Tree): Tree {
    Tree(Short, typ, fixed, Cons(kid, Nil))
  }

  function SoundEntry(): Tree {
    Tree(Short, AC4, Zeros(28), Nil)
  }

  function SoundTrack(): Tree {
    OneKid(TRAK, [], OneKid(MDIA, [], OneKid(MINF, [], OneKid(STBL, [], OneKid(STSD, Zeros(8), SoundEntry())))))
  }

  /** One AC-4 track without a configuration box, and a free box behind it. */
  function SoundMovie(): Tree {
    Tree(Short, MOOV, [], Cons(SoundTrack(), Cons(Tree(Short, FREE, [], Nil), Nil)))
  }

  /** What is known of a box on the way to the entry. */
  ghost predicate OnTheWay(t: Tree, path: seq<nat>, types: seq<FourCc>, size: nat, depth: nat) {
    && Find(t, types) == Some(path) && Sub(t, path) == SoundEntry()
    && Shaped(t) && Printable(t) && !HasToEnd(t) && Size(t) == size
    && (forall pos: nat :: SubPos(t, pos, path) == pos + depth)
    && PathFits(t, path, -16) && PathFits(t, path, 12)
  }

  lemma EntryThere()
    ensures OnTheWay(SoundEntry(), [], [], 36, 0)
  {
  }

  lemma OneUp(typ: FourCc, fixed: seq<byte>, kid: Tree, path: seq<nat>, types: seq<FourCc>, size: nat, depth: nat)
    requires OnTheWay(kid, path, types, size, depth) && 36 <= size < 1000 && |fixed| <= 8 && typ < 0x1_0000_0000
    requires Walkable(typ) && typ != MOOV && |fixed| == if typ == STSD then 8 else 0
    ensures OnTheWay(OneKid(typ, fixed, kid), [0] + path, [kid.typ] + types, size + 8 + |fixed|, depth + 8 + |fixed|)
  {
    hide Shaped, Printable, SubPos, PathFits, Find, Sub;
    var t := OneKid(typ, fixed, kid);
    assert Size(t) == size + 8 + |fixed| by {
      OneSize(typ, fixed, kid);
    }
    var p, ts := [0] + path, [kid.typ] + types;
    assert p[1..] == path && ts[1..] == types;
    OneShaped(typ, fixed, kid);
    OnePath(typ, fixed, kid, path, types);
  }

  lemma OneSize(typ: FourCc, fixed: seq<byte>, kid: Tree)
    ensures Size(OneKid(typ, fixed, kid)) == 8 + |fixed| + Size(kid)
  {
    assert SizeAll(Nil) == 0;
    assert SizeAll(Cons(kid, Nil)) == Size(kid);
  }

  lemma OneShaped(typ: FourCc, fixed: seq<byte>, kid: Tree)
    requires Shaped(kid) && Printable(kid) && !HasToEnd(kid) && Walkable(typ) && typ < 0x1_0000_0000
    requires |fixed| == (if typ == STSD then 8 else 0) && Size(OneKid(typ, fixed, kid)) < 0x1_0000_0000
    ensures var t := OneKid(typ, fixed, kid);
            Shaped(t) && Printable(t) && !HasToEnd(t)
  {
    hide Size;
    assert ShapedAll(Nil) && PrintableAll(Nil) && !HasToEndAll(Nil);
    assert ShapedAll(Cons(kid, Nil)) && PrintableAll(Cons(kid, Nil));
    assert !HasToEndAll(Cons(kid, Nil));
  }

  lemma OneIndex(t: Tree, kid: Tree)
    requires t.kids == Cons(kid, Nil)
    ensures FirstIndex(t.kids, kid.typ) == 0 < Count(t.kids) && KidAt(t.kids, 0) == kid && Before(t.kids, 0) == 0
  {
  }

  lemma OneFits(typ: FourCc, fixed: seq<byte>, kid: Tree, path: seq<nat>, delta: int)
    requires ValidPath(kid, path) && PathFits(kid, path, delta)
    requires 8 <= Size(OneKid(typ, fixed, kid)) + delta < 0x1_0000_0000
    ensures ValidPath(OneKid(typ, fixed, kid), [0] + path) && PathFits(OneKid(typ, fixed, kid), [0] + path, delta)
  {
    hide Size, FirstIndex, Before;
    OneIndex(OneKid(typ, fixed, kid), kid);
    assert ([0] + path)[1..] == path;
  }

  lemma OnePlace(typ: FourCc, fixed: seq<byte>, kid: Tree, path: seq<nat>, pos: nat)
    requires ValidPath(kid, path)
    ensures var t, p := OneKid(typ, fixed, kid), [0] + path;
            ValidPath(t, p) && Sub(t, p) == Sub(kid, path) && SubPos(t, pos, p) == SubPos(kid, pos + 8 + |fixed|, path)
  {
    hide Size, FirstIndex;
    OneIndex(OneKid(typ, fixed, kid), kid);
    assert ([0] + path)[1..] == path;
  }

  lemma OnePath(typ: FourCc, fixed: seq<byte>, kid: Tree, path: seq<nat>, types: seq<FourCc>)
    requires Find(kid, types) == Some(path) && 36 <= Size(OneKid(typ, fixed, kid)) < 0x1000_0000
    ensures var t, p := OneKid(typ, fixed, kid), [0] + path;
            && Find(t, [kid.typ] + types) == Some(p) && Sub(t, p) == Sub(kid, path)
            && (forall pos: nat :: SubPos(t, pos, p) == SubPos(kid, pos + 8 + |fixed|, path))
            && (PathFits(kid, path, -16) ==> PathFits(t, p, -16)) && (PathFits(kid, path, 12) ==> PathFits(t, p, 12))
  {
    hide Size, FirstIndex, Before, PathFits, Sub, SubPos, ValidPath;
    var t, p, ts := OneKid(typ, fixed, kid), [0] + path, [kid.typ] + types;
    OneIndex(t, kid);
    assert ts[1..] == types;
    OnePlace(typ, fixed, kid, path, 0);
    forall pos: nat ensures SubPos(t, pos, p) == SubPos(kid, pos + 8 + |fixed|, path) {
      OnePlace(typ, fixed, kid, path, pos);
    }
    if PathFits(kid, path, -16) {
      OneFits(typ, fixed, kid, path, -16);
    }
    if PathFits(kid, path, 12) {
      OneFits(typ, fixed, kid, path, 12);
    }
  }

  lemma TrackThere()
    ensures SoundTrack().typ == TRAK && OnTheWay(SoundTrack(), [0, 0, 0, 0, 0], TO_AC4, 84, 48)
  {
    hide OnTheWay;
    var entry := SoundEntry();
    var stsd := OneKid(STSD, Zeros(8), entry);
    var stbl := OneKid(STBL, [], stsd);
    var minf := OneKid(MINF, [], stbl);
    var mdia := OneKid(MDIA, [], minf);
    EntryThere();
    OneUp(STSD, Zeros(8), entry, [], [], 36, 0);
    OneUp(STBL, [], stsd, [0] + [], [AC4] + [], 52, 16);
    assert [0] + [0] == [0, 0] && [STSD] + [AC4] == [STSD, AC4] && [0] + [] == [0] && [AC4] + [] == [AC4];
    OneUp(MINF, [], stbl, [0, 0], [STSD, AC4], 60, 24);
    assert [0] + [0, 0] == [0, 0, 0] && [STBL] + [STSD, AC4] == [STBL, STSD, AC4];
    OneUp(MDIA, [], minf, [0, 0, 0], [STBL, STSD, AC4], 68, 32);
    assert [0] + [0, 0, 0] == [0, 0, 0, 0] && [MINF] + [STBL, STSD, AC4] == [MINF, STBL, STSD, AC4];
    OneUp(TRAK, [], mdia, [0, 0, 0, 0], [MINF, STBL, STSD, AC4], 76, 40);
    assert [0] + [0, 0, 0, 0] == [0, 0, 0, 0, 0] && [MDIA] + [MINF, STBL, STSD, AC4] == TO_AC4;
  }

  lemma NoOffsets()
    ensures TreeOffsets(SoundMovie().kids) == []
  {
    var stsd := OneKid(STSD, Zeros(8), SoundEntry());
    var stbl := OneKid(STBL, [], stsd);
    var minf := OneKid(MINF, [], stbl);
    var mdia := OneKid(MDIA, [], minf);
    var trak := OneKid(TRAK, [], mdia);
    assert TO_STBL[1..] == [MINF, STBL] && [MINF, STBL][1..] == [STBL] && [STBL][1..] == [];
    assert TreeNamed(stbl, STCO, 4) == [] && TreeNamed(stbl, CO64, 8) == [];
    assert TreeDown(stbl, []) == [];
    assert TreeDown(minf, [STBL]) == TreeDown(stbl, []);
    assert TreeDown(mdia, [MINF, STBL]) == TreeDown(minf, [STBL]);
    assert TreeDown(trak, TO_STBL) == TreeDown(mdia, [MINF, STBL]);
    assert TreeOffsets(Nil) == [];
    assert TreeOffsets(Cons(Tree(Short, FREE, [], Nil), Nil)) == [];
  }

  lemma MovieThere()
    ensures var m := SoundMovie();
            && IsMoov(Print(m), m) && FindEntry(m.kids) == Some(DOWN) && ValidPath(m, DOWN)
            && Sub(m, DOWN) == SoundEntry() && SubPos(m, 0, DOWN) == 56 && Size(m) == 100
            && PathFits(m, DOWN, -16) && PathFits(m, DOWN, 12)
  {
    hide Find, PathFits, Shaped, Printable, HasToEnd, Print, Parses, FindEntry;
    var m, trak, free := SoundMovie(), SoundTrack(), Tree(Short, FREE, [], Nil);
    TrackThere();
    MovieParses(m, trak, free);
    MoviePath(m, trak, free);
  }

  lemma MovieParses(m: Tree, trak: Tree, free: Tree)
    requires m == Tree(Short, MOOV, [], Cons(trak, Cons(free, Nil))) && free == Tree(Short, FREE, [], Nil)
    requires Size(trak) == 84 && Shaped(trak) && Printable(trak) && !HasToEnd(trak)
    ensures IsMoov(Print(m), m) && Size(m) == 100
  {
    hide Print;
    assert SizeAll(Nil) == 0 && SizeAll(Cons(free, Nil)) == 8 && SizeAll(m.kids) == 92;
    assert !HasToEndAll(Nil) && !HasToEndAll(Cons(free, Nil)) && !HasToEndAll(m.kids);
    assert ShapedAll(Cons(free, Nil)) && ShapedAll(m.kids);
    assert PrintableAll(Cons(free, Nil)) && PrintableAll(m.kids);
    PrintSize(m);
    PrintParses(Print(m), 0, m);
  }

  lemma MoviePath(m: Tree, trak: Tree, free: Tree)
    requires m == Tree(Short, MOOV, [], Cons(trak, Cons(free, Nil))) && Size(m) == 100
    requires trak.typ == TRAK && OnTheWay(trak, [0, 0, 0, 0, 0], TO_AC4, 84, 48)
    ensures FindEntry(m.kids) == Some(DOWN) && ValidPath(m, DOWN)
    ensures Sub(m, DOWN) == SoundEntry() && SubPos(m, 0, DOWN) == 56
    ensures PathFits(m, DOWN, -16) && PathFits(m, DOWN, 12)
  {
    hide Find, Size, Shaped, Printable, HasToEnd;
    assert DOWN[1..] == [0, 0, 0, 0, 0];
    assert KidAt(m.kids, 0) == trak && Count(m.kids) > 0;
    assert FindEntry(m.kids) == Some([0] + [0, 0, 0, 0, 0]);
    assert [0] + [0, 0, 0, 0, 0] == DOWN;
    assert SubPos(m, 0, DOWN) == SubPos(trak, KidPos(m, 0, 0), DOWN[1..]);
  }

  /** A source whose configuration box has size field 0. */
  const OPEN_DAC4: seq<byte> := [0, 0, 0, 0, 0x64, 0x61, 0x63, 0x34, 1, 2, 3, 4]
  const OPEN_SOURCE: seq<byte> := [0, 0, 0, 20, 0x6D, 0x6F, 0x6F, 0x76] + OPEN_DAC4

  lemma SourceThere()
    ensures SourceConfig(Some(OPEN_SOURCE)) == Found(OPEN_DAC4) && Read32(OPEN_DAC4, 0) == 0
  {
    Four(OPEN_SOURCE[0..4]);
    Four(OPEN_SOURCE[4..8]);
    Four(OPEN_SOURCE[8..12]);
    Four(OPEN_SOURCE[12..16]);
    assert ReadBox(OPEN_SOURCE, 0) == Some(Box(0, 20, 8, MOOV));
    assert ReadBox(OPEN_SOURCE, 8) == Some(Box(8, 12, 8, DAC4));
    assert FindBySignature(OPEN_SOURCE, 8, 20, DAC4) == Some(Box(8, 12, 8, DAC4));
    assert OPEN_SOURCE[8..20] == OPEN_DAC4;
    assert OPEN_DAC4[0..4] == OPEN_SOURCE[8..12];
  }

  lemma ReadyWithout(data: seq<byte>, m: Tree, path: seq<nat>, source: Option<seq<byte>>)
    requires Editable(data, m, path) && !HasConfig(m, path) && Version(Sub(m, path)) != 1
    requires SourceConfig(source).Found? && ChunkOffsets(data) == []
    requires PathFits(m, path, -16) && PathFits(m, path, |SourceConfig(source).bytes|)
    ensures Ready(data, m, path, 0, source)
  {
    hide IsMoov, FindEntry, PathFits, Version, SourceConfig, ChunkOffsets, HasConfig, Sub, ValidPath, Find, NormalTree;
    hide Wanted;
  }

  lemma MovieReady()
    ensures Ready(Print(SoundMovie()), SoundMovie(), DOWN, 0, Some(OPEN_SOURCE))
    ensures !HasConfig(SoundMovie(), DOWN) && ConfigAt(SoundMovie(), DOWN) == 92 && |Print(SoundMovie())| == 100
  {
    hide IsMoov, FindEntry, Sub, SubPos, ValidPath, PathFits, Print, SoundMovie, SourceConfig, ChunkOffsets, Ready;
    hide EntryShaped, Version, Find, SoundEntry, FirstIndex, Count, Size, TreeOffsets, KidsPos, Read32;
    var m := SoundMovie();
    MovieThere();
    SourceThere();
    EntryPlain();
    NoOffsets();
    OffsetsOf(Print(m), m);
    MoovSize(Print(m), m);
    ReadyWithout(Print(m), m, DOWN, Some(OPEN_SOURCE));
  }

  lemma EntryPlain()
    ensures var e := SoundEntry();
            EntryShaped(e) && Version(e) == 0 && e.typ == AC4 && FirstIndex(e.kids, DAC4) == 0 == Count(e.kids)
            && KidsPos(e, 56) == 92
  {
    var f := SoundEntry().fixed;
    assert f[8..10] == [0, 0] && [0, 0][..1] == [0];
    assert FromBE([0]) == 0 && FromBE([0, 0]) == 0;
  }

  /** The copied box is not the box found: it takes in what follows it in the moov, which is tiled, but not
      as the expected tree. */
  lemma OpenEndedConfig()
    ensures var out := Ensure(Print(SoundMovie()), 0, Some(OPEN_SOURCE));
            && Ready(Print(SoundMovie()), SoundMovie(), DOWN, 0, Some(OPEN_SOURCE))
            && out.Moov? && Tiled(out.bytes) && ConfigOf(out.bytes) != Some(OPEN_DAC4)
            && !Editable(out.bytes, FinalTree(SoundMovie(), DOWN, 0, Some(OPEN_SOURCE)), DOWN)
  {
    hide Ready, Print, SoundMovie, Ensure, ConfigOf, Editable, FinalTree, SamplesKept, Settled, ConfigAt, HasConfig;
    hide SourceConfig;
    MovieReady();
    SourceThere();
    EnsureResult([], Print(SoundMovie()), [], SoundMovie(), DOWN, Some(OPEN_SOURCE), None);
  }

  // ----- a last child that says "to the end" -----

  const OPEN_MOVIE: Tree := Tree(Short, MOOV, [], Cons(Tree(ToEnd, FREE, [], Nil), Nil))

  /** A moov of one free box of size field 0: that box takes in the appended metadata box, which is not found
      again, so the next write appends another. The moov is tiled, but not with the new box as its child. */
  lemma SwallowedMetadata(payload: seq<byte>)
    requires |payload| < 1000
    ensures var data, udta := Print(OPEN_MOVIE), Atom(UDTA, payload);
            && IsMoov(data, OPEN_MOVIE) && WithUdta(WithUdta(data, 0, udta), 0, udta) != WithUdta(data, 0, udta)
            && !Parses(WithUdta(data, 0, udta), 0, UdtaTree(OPEN_MOVIE, payload, 0))
            && IsMoov(WithUdta(data, 0, udta), AppendedTree(OPEN_MOVIE, payload, 0))
            && AppendedTree(OPEN_MOVIE, payload, 0).kids == Cons(Tree(ToEnd, FREE, udta, Nil), Nil)
  {
    hide Print, WithUdta, Atom, Parses, UdtaTree, Shaped, PathFits, AppendedTree, OpenAbove;
    OpenMovieThere();
    OpenMovieFits(8 + |payload|);
    UdtaTwiceIff(Print(OPEN_MOVIE), OPEN_MOVIE, payload, 0, 0);
    AppendParsesIff(Print(OPEN_MOVIE), OPEN_MOVIE, payload, 0);
    AppendedParsesIff(Print(OPEN_MOVIE), OPEN_MOVIE, payload, 0);
    OpenMovieTakes(payload);
  }

  lemma OpenMovieTakes(payload: seq<byte>)
    ensures OpenAbove(OPEN_MOVIE.kids)
    ensures AppendedTree(OPEN_MOVIE, payload, 0).kids == Cons(Tree(ToEnd, FREE, Atom(UDTA, payload), Nil), Nil)
  {
    hide Atom, Taken, Size, ShiftDown;
    var free := OPEN_MOVIE.kids.head;
    assert HasToEnd(free) && OpenDown(free) && Last(OPEN_MOVIE.kids) == free;
    TakenIs(free, payload);
    assert [] + Atom(UDTA, payload) == Atom(UDTA, payload);
    NothingToShift(Size(OPEN_MOVIE), 8 + |payload|);
  }

  lemma NothingToShift(insertPos: int, delta: int)
    ensures ShiftTraks(OPEN_MOVIE.kids, insertPos, delta) == OPEN_MOVIE.kids
  {
    assert ShiftTraks(Nil, insertPos, delta) == Nil;
  }

  lemma OpenMovieThere()
    ensures IsMoov(Print(OPEN_MOVIE), OPEN_MOVIE) && Size(OPEN_MOVIE) == 16
    ensures !HasUdta(OPEN_MOVIE) && EndsOpen(OPEN_MOVIE.kids) && HasToEndAll(OPEN_MOVIE.kids)
  {
    hide Print;
    var free := OPEN_MOVIE.kids.head;
    assert SizeAll(Nil) == 0 && Size(free) == 8 && SizeAll(OPEN_MOVIE.kids) == 8;
    assert ShapedAll(Nil) && ShapedAll(OPEN_MOVIE.kids) && PrintableAll(Nil) && PrintableAll(OPEN_MOVIE.kids);
    assert FirstIndex(Nil, UDTA) == 0 && FirstIndex(OPEN_MOVIE.kids, UDTA) == 1 == Count(OPEN_MOVIE.kids);
    PrintSize(OPEN_MOVIE);
    PrintParses(Print(OPEN_MOVIE), 0, OPEN_MOVIE);
  }

  lemma OpenMovieFits(n: nat)
    requires Size(OPEN_MOVIE) == 16 && n < 2000
    ensures PathFits(OPEN_MOVIE, [], n)
  {
  }

  // ----- an offset table that says "to the end" -----

  /** One track whose offset table has size field 0, counts one entry and holds none. */
  const PHANTOM_TABLE: Tree := Tree(ToEnd, STCO, [0, 0, 0, 0] + [0, 0, 0, 1], Nil)

  function PhantomTable(): Tree {
    OneKid(STBL, [], PHANTOM_TABLE)
  }

  function PhantomTrack(): Tree {
    OneKid(TRAK, [], OneKid(MDIA, [], OneKid(MINF, [], PhantomTable())))
  }

  function PhantomMovie(): Tree {
    OneKid(MOOV, [], PhantomTrack())
  }

  lemma OneOpen(typ: FourCc, kid: Tree)
    requires Shaped(kid) && Printable(kid) && IsContainer(typ) && Size(kid) < 1000
    ensures var t := OneKid(typ, [], kid);
            Shaped(t) && Printable(t) && Size(t) == Size(kid) + 8
  {
    hide Size;
    OneSize(typ, [], kid);
    assert ShapedAll(Nil) && PrintableAll(Nil);
    assert ShapedAll(Cons(kid, Nil)) && PrintableAll(Cons(kid, Nil));
  }

  lemma PhantomMovieThere()
    ensures IsMoov(Print(PhantomMovie()), PhantomMovie()) && Size(PhantomMovie()) == 56
  {
    hide Shaped, Printable, Size, HasToEnd, Print;
    var stbl := PhantomTable();
    var minf := OneKid(MINF, [], stbl);
    var mdia := OneKid(MDIA, [], minf);
    PhantomTableThere();
    OneOpen(STBL, PHANTOM_TABLE);
    OneOpen(MINF, stbl);
    OneOpen(MDIA, minf);
    OneOpen(TRAK, mdia);
    OneOpen(MOOV, PhantomTrack());
    KidsPrintable(PhantomMovie());
    PrintSize(PhantomMovie());
    PrintParses(Print(PhantomMovie()), 0, PhantomMovie());
  }

  lemma PhantomTableThere()
    ensures Shaped(PHANTOM_TABLE) && Printable(PHANTOM_TABLE) && Size(PHANTOM_TABLE) == 16
  {
    assert SizeAll(Nil) == 0 && ShapedAll(Nil) && PrintableAll(Nil);
  }

  /** What the walks make of a chain of boxes with one child each. */
  lemma PhantomWalk(tail: seq<byte>)
    ensures TreeOffsets(PhantomMovie().kids) == TreeNamed(PhantomTable(), STCO, 4)
    ensures TablesHold(PhantomMovie().kids, tail) ==> NamedHolds(PhantomTable(), STCO, 4, tail)
  {
    hide TreeNamed, NamedHolds;
    var stbl := PhantomTable();
    var minf := OneKid(MINF, [], stbl);
    var mdia := OneKid(MDIA, [], minf);
    assert TO_STBL[1..] == [MINF, STBL] && [MINF, STBL][1..] == [STBL] && [STBL][1..] == [];
    NoCo64(stbl);
    OneIndex(minf, stbl);
    OneIndex(mdia, minf);
    OneIndex(PhantomTrack(), mdia);
    assert TreeDown(stbl, []) == TreeNamed(stbl, STCO, 4) + [] == TreeNamed(stbl, STCO, 4);
    assert TreeDown(minf, [STBL]) == TreeDown(stbl, []);
    assert TreeDown(mdia, [MINF, STBL]) == TreeDown(minf, [STBL]);
    assert TreeDown(PhantomTrack(), TO_STBL) == TreeDown(mdia, [MINF, STBL]);
    assert TreeOffsets(Nil) == [];
    assert DownHolds(minf, [STBL], tail) == DownHolds(stbl, [], tail);
    assert DownHolds(mdia, [MINF, STBL], tail) == DownHolds(minf, [STBL], tail);
    assert DownHolds(PhantomTrack(), TO_STBL, tail) == DownHolds(mdia, [MINF, STBL], tail);
  }

  lemma NoCo64(stbl: Tree)
    requires stbl == PhantomTable()
    ensures TreeNamed(stbl, CO64, 8) == []
  {
    assert FirstIndex(Nil, CO64) == 0 && Count(Nil) == 0;
  }

  lemma PhantomTableCounts(tail: seq<byte>)
    ensures TreeNamed(PhantomTable(), STCO, 4) == [] && !NamedHolds(PhantomTable(), STCO, 4, tail)
  {
    hide FromBE;
    var fixed := PHANTOM_TABLE.fixed;
    Four([0, 0, 0, 1]);
    assert fixed[4..8] == [0, 0, 0, 1] && fixed[8..] == [];
    OneIndex(PhantomTable(), PHANTOM_TABLE);
    assert TableOffsets(fixed, 4) == Offsets([], 4, 1) == [];
  }

  /** No chunk offset before the append, one after it, made of bytes of the new box. The samples of a file
      are not what its offsets say any more, and since the boxes around the table have explicit ends, no
      tree tiles the moov. */
  lemma PhantomOffset(pre: seq<byte>, post: seq<byte>, payload: seq<byte>)
    requires |payload| < 1000
    ensures var data := Print(PhantomMovie());
            var out := WithUdta(data, |pre|, Atom(UDTA, payload));
            && IsMoov(data, PhantomMovie()) && ChunkOffsets(data) == [] && ChunkOffsets(out) != []
            && !SamplesKept(pre, data, out, post, ChunkOffsets(data), ChunkOffsets(out)) && !Tiled(out)
  {
    hide Print, WithUdta, Atom, TablesHold, ChunkOffsets, Size, IsMoov, Tiled, TreeOffsets, PathFits, Tileable;
    var data, m, atom := Print(PhantomMovie()), PhantomMovie(), Atom(UDTA, payload);
    PhantomMovieThere();
    PhantomWalk(atom);
    PhantomTableCounts(atom);
    OffsetsOf(data, m);
    PhantomFits(8 + |payload|);
    MorePhantoms(data, m, payload, |pre|);
    UdtaKeepsSamplesIff(pre, data, post, m, payload);
    TiledIff(data, m, payload, |pre|);
  }

  lemma PhantomFits(n: nat)
    requires Size(PhantomMovie()) == 56 && n < 2000
    ensures PathFits(PhantomMovie(), [], n) && !HasUdta(PhantomMovie()) && !Tileable(PhantomMovie().kids)
    ensures UdtaAt(PhantomMovie()) == UdtaEnd(PhantomMovie())
  {
    hide Size;
    var stbl := PhantomTable();
    var minf := OneKid(MINF, [], stbl);
    var mdia := OneKid(MDIA, [], minf);
    OneIndex(PhantomMovie(), PhantomTrack());
    assert FirstIndex(Nil, UDTA) == 0 && Count(Nil) == 0;
    assert Last(stbl.kids) == PHANTOM_TABLE && !Sealed(stbl.kids);
    assert Last(minf.kids) == stbl && !Sealed(minf.kids);
    assert Last(mdia.kids) == minf && !Sealed(mdia.kids);
    assert Last(PhantomTrack().kids) == mdia && !Sealed(PhantomTrack().kids);
    assert Last(PhantomMovie().kids) == PhantomTrack();
  }
}
