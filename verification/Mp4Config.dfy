/**
 The whole AC-4 pass over a moov: normalise the entry, then inject the configuration box of
 the source file. The result parses, the samples survive, the box is there byte for byte,
 and a second pass changes nothing.
 */
module Mp4Config {
  import opened Bytes
  import opened Mp4Boxes
  import opened Mp4Edits
  import opened Mp4Tree
  import opened Mp4Shift
  import opened Mp4Splice
  import opened Mp4Surgery
  import opened Mp4Normalize
  import opened Mp4Samples

  // ----- the box of the source -----

  /** One configuration box from end to end, whatever its size field says it by. */
  predicate IsDac4(bytes: seq<byte>) {
    var b := ReadBox(bytes, 0);
    b.Some? && b.value.size == |bytes| && b.value.typ == DAC4
  }

  ghost predicate IsConfig(bytes: seq<byte>, cfg: Tree) {
    Parses(bytes, 0, cfg) && |bytes| == Size(cfg) && cfg.typ == DAC4 && cfg.kids == Nil
  }

  function ConfigTree(bytes: seq<byte>): (t: Tree)
    requires IsDac4(bytes)
  {
    var kind := if Read32(bytes, 0) == 1 then Long else if Read32(bytes, 0) == 0 then ToEnd else Short;
    Tree(kind, DAC4, bytes[HdrLen(kind)..], Nil)
  }

  /** What is copied from the source is a whole configuration box. */
  lemma SourceConfigParses(source: Option<seq<byte>>)
    requires SourceConfig(source).Found?
    ensures var bytes := SourceConfig(source).bytes;
            IsDac4(bytes) && IsConfig(bytes, ConfigTree(bytes))
  {
    hide FindBySignature;
    var moov := ReadBox(source.value, 0).value;
    var b := FindBySignature(source.value, moov.Body(), moov.End(), DAC4).value;
    CopiedBox(source.value, b);
    ConfigParses(SourceConfig(source).bytes);
  }

  /** What a source can lack: a readable moov, or any readable configuration box at any position in it.
      Otherwise the first that stands there is copied. */
  lemma SourceConfigIff(source: Option<seq<byte>>)
    ensures SourceConfig(source).NoMoov? <==> source.None? || ReadBox(source.value, 0).None?
    ensures source.Some? && ReadBox(source.value, 0).Some? ==>
              var s, moov := source.value, ReadBox(source.value, 0).value;
              && (SourceConfig(source).NoDac4? <==> NoneStands(s, moov.Body(), moov.End() - 7, DAC4))
              && (SourceConfig(source).Found? ==>
                    exists k: nat :: && moov.Body() <= k <= moov.End() - 8 && StandsAt(s, k, DAC4)
                                     && NoneStands(s, moov.Body(), k, DAC4)
                                     && SourceConfig(source).bytes == s[k..ReadBox(s, k).value.End()])
  {
    hide ReadBox;
    if source.Some? && ReadBox(source.value, 0).Some? {
      var s, moov := source.value, ReadBox(source.value, 0).value;
      SignatureIsFirst(s, moov.Body(), moov.End(), DAC4);
      var b := FindBySignature(s, moov.Body(), moov.End(), DAC4);
      hide FindBySignature;
      assert b.Some? ==> StandsAt(s, b.value.offset, DAC4);
    }
  }

  lemma CopiedBox(source: seq<byte>, b: Box)
    requires ReadBox(source, b.offset) == Some(b) && b.typ == DAC4
    ensures IsDac4(source[b.offset..b.End()])
  {
    hide FromBE;
    var bytes := source[b.offset..b.End()];
    SliceOfSlice(source, b.offset, b.End(), 0, 4);
    SliceOfSlice(source, b.offset, b.End(), 4, 8);
    if b.hdr == 16 {
      SliceOfSlice(source, b.offset, b.End(), 8, 16);
    }
  }

  lemma ConfigParses(bytes: seq<byte>)
    requires IsDac4(bytes)
    ensures IsConfig(bytes, ConfigTree(bytes))
  {
    hide FromBE;
    var t := ConfigTree(bytes);
    assert HdrLen(t.kind) + |t.fixed| == |bytes|;
    assert SizeAll(t.kids) == 0;
    assert HeaderIs(bytes, 0, t.kind, Size(t), DAC4);
    assert ParsesAll(bytes, KidsPos(t, 0), t.kids);
  }

  /** Where the box is copied to it reads as itself, but with size field 0 as all that follows. */
  lemma CopiedRead(bytes: seq<byte>, out: seq<byte>, at: nat)
    requires IsDac4(bytes) && at + |bytes| <= |out| && out[at..at + |bytes|] == bytes
    ensures ReadBox(out, at) == Some(Box(at, if Read32(bytes, 0) == 0 then |out| - at else |bytes|,
                                         ReadBox(bytes, 0).value.hdr, DAC4))
  {
    hide FromBE, Read32;
    ReadSame(bytes, out, at, 0);
    ReadSame(bytes, out, at, 4);
    if Read32(bytes, 0) == 1 {
      SliceOfSlice(out, at, at + |bytes|, 8, 16);
    }
  }

  lemma ReadSame(bytes: seq<byte>, out: seq<byte>, at: nat, i: nat)
    requires at + |bytes| <= |out| && out[at..at + |bytes|] == bytes && i + 4 <= |bytes|
    ensures Read32(out, at + i) == Read32(bytes, i)
  {
    hide FromBE;
    SliceOfSlice(out, at, at + |bytes|, i, i + 4);
  }

  // ----- the box injected -----

  function WithConfig(e: Tree, cfg: Tree): Tree {
    e.(kind := Explicit(e.kind), kids := Cons(cfg, e.kids))
  }

  /** Where the children of the entry begin. */
  function ConfigAt(moov: Tree, path: seq<nat>): nat
    requires ValidPath(moov, path)
  {
    KidsPos(Sub(moov, path), SubPos(moov, 0, path))
  }

  function ConfiguredTree(moov: Tree, path: seq<nat>, cfg: Tree, base: nat): Tree
    requires ValidPath(moov, path)
  {
    var m := ShiftMoov(moov, base + ConfigAt(moov, path), Size(cfg));
    ShiftedShape(moov, base + ConfigAt(moov, path), Size(cfg));
    ShapePath(moov, m, 0, path, 0);
    Replace(m, path, WithConfig(Sub(moov, path), cfg), true)
  }

  lemma ConfigPut(s: seq<byte>, out: seq<byte>, m: Tree, path: seq<nat>, bytes: seq<byte>, cfg: Tree)
    requires ValidPath(m, path) && IsMoov(s, m) && IsConfig(bytes, cfg)
    requires EditDone(s, out, m, path, ConfigAt(m, path), ConfigAt(m, path), bytes)
    requires cfg.kind == ToEnd ==> ConfigAt(m, path) == |s|
    ensures Parses(out, SubPos(m, 0, path), WithConfig(Sub(m, path), cfg))
  {
    hide IsMoov, Parses, Around, TargetCut;
    var at := ConfigAt(m, path);
    ChainIn(s, m, path);
    BytesStand(bytes, out, at);
    OpenLeaf(cfg);
    Moved(bytes, 0, out, at, cfg);
    KidPut(s, out, SubPos(m, 0, path), Sub(m, path), cfg);
  }

  lemma BytesStand(bytes: seq<byte>, out: seq<byte>, at: nat)
    requires at + |bytes| <= |out| && out[at..at + |bytes|] == bytes
    ensures Same(bytes, 0, out, at, |bytes|)
  {
    assert bytes[0..|bytes|] == bytes;
  }

  lemma OpenLeaf(t: Tree)
    requires t.kids == Nil
    ensures HasToEnd(t) <==> t.kind == ToEnd
  {
  }

  /** Injecting the configuration box: the moov parses as the same tree with the box as the first
      child of the entry and every chunk offset shifted by its length. A box of size field 0 must
      come to stand at the end. */
  lemma InjectedParses(data: seq<byte>, moov: Tree, path: seq<nat>, bytes: seq<byte>, cfg: Tree, base: nat)
    requires Editable(data, moov, path) && IsConfig(bytes, cfg) && PathFits(moov, path, |bytes|)
    requires cfg.kind == ToEnd ==> ConfigAt(moov, path) == |data|
    ensures var at, r := ConfigAt(moov, path), ConfiguredTree(moov, path, cfg, base);
            && AllInBuffer(Chain(moov, 0, path), data) && at <= |data|
            && var out := Rewritten(data, Chain(moov, 0, path), at, at, bytes, base);
            && Editable(out, r, path) && Sub(r, path) == WithConfig(Sub(moov, path), cfg)
            && SubPos(r, 0, path) == SubPos(moov, 0, path) && out[at..at + |bytes|] == bytes
            && AllShifted(TreeOffsets(moov.kids), TreeOffsets(r.kids), base + at, |bytes|)
  {
    hide IsMoov, Parses, Shaped, FindEntry, TreeOffsets, Rewritten, AllShifted, PathFits, Version, IsConfig;
    hide EntryShaped, EditDone, Editable;
    hide WithConfig, ConfiguredTree, ConfigAt, AllInBuffer, EditIn;
    hide ShiftMoov, SameShape, Replace, Sub, SubPos, Chain, ValidPath, Find, Size, Around, TargetCut;
    EditableParts(data, moov, path);
    var at := ConfigAt(moov, path);
    EntryIn(data, moov, path);
    ConfigSize(bytes, cfg);
    InjectRoom(moov, path, |bytes|);
    var s := EditAround(data, moov, path, at, at, bytes, base);
    var m := ShiftMoov(moov, base + at, |bytes|);
    var out := Rewritten(data, Chain(moov, 0, path), at, at, bytes, base);
    InsStands(s, out, m, path, at, at, bytes);
    Injection(data, moov, path, bytes, cfg, base, s, at, m, out);
  }

  lemma EditableParts(data: seq<byte>, moov: Tree, path: seq<nat>)
    requires Editable(data, moov, path)
    ensures IsMoov(data, moov) && FindEntry(moov.kids) == Some(path) && ValidPath(moov, path)
  {
  }

  lemma ConfigSize(bytes: seq<byte>, cfg: Tree)
    requires IsConfig(bytes, cfg)
    ensures Size(cfg) == |bytes| && cfg.typ == DAC4 && Shaped(cfg)
  {
  }

  lemma InjectRoom(moov: Tree, path: seq<nat>, n: nat)
    requires ValidPath(moov, path) && PathFits(moov, path, n)
    ensures EditIn(moov, path, ConfigAt(moov, path), ConfigAt(moov, path), n)
  {
    hide PathFits;
  }

  lemma WithConfigShaped(e: Tree, cfg: Tree)
    requires e.typ == AC4 && Shaped(e) && Shaped(cfg)
    ensures Shaped(WithConfig(e, cfg)) && Size(WithConfig(e, cfg)) == Size(e) + Size(cfg)
    ensures EntryShaped(WithConfig(e, cfg)) == EntryShaped(e) && WithConfig(e, cfg).typ == AC4
  {
    SizePut(e, cfg, Explicit(e.kind));
  }

  lemma Injection(data: seq<byte>, moov: Tree, path: seq<nat>, bytes: seq<byte>, cfg: Tree, base: nat, s: seq<byte>,
                  at: nat, m: Tree, out: seq<byte>)
    requires Editable(data, moov, path) && IsConfig(bytes, cfg) && |bytes| == Size(cfg) && Shaped(cfg)
    requires at == ConfigAt(moov, path) <= |data| && m == ShiftMoov(moov, base + at, |bytes|)
    requires EditIn(moov, path, at, at, |bytes|) && AllInBuffer(Chain(moov, 0, path), data) && Shaped(Sub(moov, path))
    requires out == Rewritten(data, Chain(moov, 0, path), at, at, bytes, base)
    requires ValidPath(m, path) && IsMoov(s, m) && SubPos(m, 0, path) == SubPos(moov, 0, path)
    requires EditDone(s, out, m, path, at, at, bytes) && (cfg.kind == ToEnd ==> at == |s|)
    ensures var r := ConfiguredTree(moov, path, cfg, base);
            && Editable(out, r, path) && Sub(r, path) == WithConfig(Sub(moov, path), cfg)
            && SubPos(r, 0, path) == SubPos(moov, 0, path)
            && AllShifted(TreeOffsets(moov.kids), TreeOffsets(r.kids), base + at, |bytes|)
  {
    hide IsMoov, Parses, Shaped, FindEntry, TreeOffsets, Rewritten, AllShifted, PathFits, Version, IsConfig;
    hide ShiftMoov, SameShape, Replace, Sub, SubPos, Chain, ValidPath, Find, Size, Around, TargetCut;
    hide EntryShaped, EditDone, EditIn;
    var e := Sub(moov, path);
    ShiftKeepsEntry(moov, path, base + at, |bytes|);
    WithConfigShaped(e, cfg);
    ConfigPut(s, out, m, path, bytes, cfg);
    EntryEdited(data, moov, path, at, at, bytes, base, s, WithConfig(e, cfg));
    ReplacedSub(m, path, WithConfig(e, cfg), true, 0);
  }

  // ----- what a player finds -----

  /** The bytes of the configuration box found behind the entry's fields. */
  function ConfigOf(data: seq<byte>): Option<seq<byte>> {
    match Locate(data)
    case None => None
    case Some(chain) =>
      var entry := chain[6];
      assert entry in chain;
      match HeaderLen(data, entry)
      case None => None
      case Some(n) =>
        match FindChild(data, entry.Body() + n, entry.End(), DAC4)
        case None => None
        case Some(b) => Some(data[b.offset..b.End()])
  }

  /** The entry has a configuration box and no version-1 extension. */
  ghost predicate Settled(data: seq<byte>) {
    ConfigOf(data).Some? && !(InBuffer(Locate(data).value[6], data) && HasExtension(data, Locate(data).value[6]))
  }

  /** A settled moov is left alone, whatever the source. */
  lemma SettledStays(data: seq<byte>, base: nat, source: Option<seq<byte>>)
    requires Settled(data)
    ensures Ensure(data, base, source) == Moov(data)
  {
    hide Locate, HasExtension, Rewritten, SourceConfig, HeaderLen, FindChild;
    assert Locate(data).value[6] in Locate(data).value;
  }

  // ----- the entry as a box nobody looks into -----

  function Closed(e: Tree, content: seq<byte>): Tree {
    Tree(e.kind, e.typ, content, Nil)
  }

  lemma ClosedParses(data: seq<byte>, pos: nat, e: Tree)
    requires Parses(data, pos, e) && pos + Size(e) <= |data|
    ensures var content := data[pos + HdrLen(e.kind)..pos + Size(e)];
            && Parses(data, pos, Closed(e, content)) && Size(Closed(e, content)) == Size(e)
            && |e.fixed| <= |content| && content[..|e.fixed|] == e.fixed
  {
    hide ReadBox, KindIs;
    var h := pos + HdrLen(e.kind);
    var c := Closed(e, data[h..pos + Size(e)]);
    SliceOfSlice(data, h, pos + Size(e), 0, |e.fixed|);
    assert SizeAll(c.kids) == 0 && ParsesAll(data, KidsPos(c, pos), c.kids);
    assert HeaderIs(data, pos, c.kind, Size(c), c.typ);
  }

  lemma {:induction false} ChainKept(t: Tree, pos: nat, path: seq<nat>, u: Tree, delta: int)
    requires ValidPath(t, path) && u.typ == Sub(t, path).typ && u.kind == Sub(t, path).kind
             && Size(u) == Size(Sub(t, path))
    ensures var r := Replace(t, path, u, false);
            && ValidPath(r, path) && Chain(r, pos, path) == Chain(t, pos, path)
            && PathFits(r, path, delta) == PathFits(t, path, delta)
    decreases |path|
  {
    hide SizeFits, Size, Before, KidAt, Count, ReplaceAt;
    if path != [] {
      var kid := KidAt(t.kids, path[0]);
      ChainKept(kid, KidPos(t, pos, path[0]), path[1..], u, delta);
      ReplaceAtOther(t.kids, path[0], Replace(kid, path[1..], u, false), path[0], 0);
    }
  }

  /** The moov with its entry closed: the same buffer, the same places and offsets. */
  lemma ClosedMoov(data: seq<byte>, moov: Tree, path: seq<nat>, delta: int) returns (o: Tree)
    requires Editable(data, moov, path)
    ensures IsMoov(data, o) && FindEntry(o.kids) == Some(path) && ValidPath(o, path)
    ensures Chain(o, 0, path) == Chain(moov, 0, path) && SubPos(o, 0, path) == SubPos(moov, 0, path)
    ensures PathFits(o, path, delta) == PathFits(moov, path, delta)
    ensures var c, e := Sub(o, path), Sub(moov, path);
            && c.kind == e.kind && c.typ == AC4 && c.kids == Nil && Size(c) == Size(e)
            && |e.fixed| <= |c.fixed| && c.fixed[..|e.fixed|] == e.fixed
  {
    hide Parses, Shaped, FindEntry, EntryShaped, Replace, Chain, PathFits, Sub, SubPos, ValidPath, Find, Outside;
    var e, pos := Sub(moov, path), SubPos(moov, 0, path);
    ChainIn(data, moov, path);
    ClosedParses(data, pos, e);
    var c := Closed(e, data[pos + HdrLen(e.kind)..pos + Size(e)]);
    o := Replace(moov, path, c, false);
    NothingChanged(data, pos, pos + Size(e));
    SubChanged(data, data, 0, moov, path, c);
    ClosedShaped(c);
    ReplacedShaped(moov, path, c, false);
    ChainKept(moov, 0, path, c, delta);
    ReplacedSub(moov, path, c, false, 0);
    EntryStays(moov, path, c, false);
  }

  lemma ClosedShaped(c: Tree)
    requires c.typ == AC4 && c.kids == Nil
    ensures Shaped(c)
  {
  }

  /** A closed entry with bytes put into it. */
  lemma ClosedPut(s: seq<byte>, out: seq<byte>, m: Tree, path: seq<nat>, at: nat, bytes: seq<byte>)
    requires ValidPath(m, path) && IsMoov(s, m) && EditDone(s, out, m, path, at, at, bytes)
    requires Sub(m, path).typ == AC4 && Sub(m, path).kids == Nil
    ensures var c, pos := Sub(m, path), SubPos(m, 0, path);
            var h := pos + HdrLen(c.kind);
            && h <= at <= h + |c.fixed| && h + |c.fixed| + |bytes| <= |out|
            && out[h..at] == c.fixed[..at - h]
            && Parses(out, pos, Tree(Explicit(c.kind), AC4, out[h..h + |c.fixed| + |bytes|], Nil))
  {
    hide IsMoov, Parses, Around, TargetCut, Sub, SubPos, ValidPath, Size;
    ChainIn(s, m, path);
    ClosedCut(s, out, SubPos(m, 0, path), Sub(m, path), at, |bytes|);
  }

  lemma ClosedCut(s: seq<byte>, out: seq<byte>, pos: nat, c: Tree, at: nat, n: nat)
    requires Parses(s, pos, c) && c.kids == Nil && c.typ == AC4 && TargetCut(s, out, pos, c, at, at, n)
    ensures var h := pos + HdrLen(c.kind);
            && h <= at <= h + |c.fixed| && h + |c.fixed| + n <= |out|
            && out[h..at] == c.fixed[..at - h]
            && Parses(out, pos, Tree(Explicit(c.kind), AC4, out[h..h + |c.fixed| + n], Nil))
  {
    hide FromBE;
    var h := pos + HdrLen(c.kind);
    assert Size(c) == HdrLen(c.kind) + |c.fixed|;
    SliceOfSlice(s, h, KidsPos(c, pos), 0, at - h);
    var u := Tree(Explicit(c.kind), AC4, out[h..h + |c.fixed| + n], Nil);
    assert Size(u) == Size(c) + n;
    BoxBuilt(out, pos, u);
  }

  lemma Dac4Size(bytes: seq<byte>)
    requires IsDac4(bytes)
    ensures |bytes| >= 8
  {
  }

  /** The search in a moov whose closed entry has the box right behind its fields. */
  lemma ConfigRead(out: seq<byte>, r: Tree, path: seq<nat>, e: Tree, at: nat, bytes: seq<byte>)
    requires IsMoov(out, r) && FindEntry(r.kids) == Some(path) && ValidPath(r, path)
    requires EntryShaped(e) && Version(e) != 1 && IsDac4(bytes)
    requires var u, pos := Sub(r, path), SubPos(r, 0, path);
             && at == pos + HdrLen(u.kind) + |e.fixed| && at + |bytes| <= pos + Size(u) <= |out|
             && out[pos + HdrLen(u.kind)..at] == e.fixed && out[at..at + |bytes|] == bytes
    ensures Settled(out) && ConfigOf(out) == Some(if Read32(bytes, 0) == 0 then out[at..] else bytes)
  {
    hide IsMoov, FindEntry, FromBE, Locate, Chain, Sub, SubPos, ValidPath, Find, ReadBox, IsDac4;
    LocateIs(out, r);
    EntryPath(r, path);
    CopiedRead(bytes, out, at);
    Dac4Size(bytes);
    var h := at - |e.fixed|;
    SliceOfSlice(out, h, at, 8, 10);
    assert out[h + 8..h + 10] == e.fixed[8..10];
    var entry := BoxOf(Sub(r, path), SubPos(r, 0, path));
    assert Chain(r, 0, path)[6] == entry;
    assert HeaderLen(out, entry) == Some(|e.fixed|);
    assert FindChild(out, at, entry.End(), DAC4) == ReadBox(out, at);
    assert entry.Body() + |e.fixed| == at;
    var b := ReadBox(out, at).value;
    assert ConfigOf(out) == Some(out[b.offset..b.End()]);
    assert Read32(bytes, 0) == 0 ==> out[b.offset..b.End()] == out[at..];
  }

  /** Injecting the box, whatever its size field: the moov is still tiled, if only with the entry as a box
      nobody looks into; every chunk offset is shifted; and the entry has a configuration box, which reads
      as the copied one or, with size field 0, as all that follows. */
  lemma InjectedSettled(data: seq<byte>, moov: Tree, path: seq<nat>, bytes: seq<byte>, base: nat)
    requires Editable(data, moov, path) && Version(Sub(moov, path)) != 1 && IsDac4(bytes)
    requires PathFits(moov, path, |bytes|)
    ensures var at := ConfigAt(moov, path);
            && AllInBuffer(Chain(moov, 0, path), data) && at <= |data|
            && var out := Rewritten(data, Chain(moov, 0, path), at, at, bytes, base);
               && AllShifted(ChunkOffsets(data), ChunkOffsets(out), base + at, |bytes|)
               && Settled(out) && ConfigOf(out) == Some(if Read32(bytes, 0) == 0 then out[at..] else bytes)
               && out[at..at + |bytes|] == bytes && Tiled(out)
  {
    hide Tiled, KidsPos, HdrLen, Read32, FromBE;
    hide IsMoov, Parses, Shaped, FindEntry, TreeOffsets, Rewritten, AllShifted, PathFits, Version, EntryShaped;
    hide EditDone;
    hide AllInBuffer, EditIn, IsDac4, Settled, ConfigOf, ChunkOffsets, Size;
    hide ShiftMoov, SameShape, Replace, Sub, SubPos, Chain, ValidPath, Find, Around, TargetCut;
    var e, at := Sub(moov, path), ConfigAt(moov, path);
    EntryIn(data, moov, path);
    var o := ClosedMoov(data, moov, path, |bytes|);
    ClosedRoom(o, path, e, at, |bytes|);
    var s := EditAround(data, o, path, at, at, bytes, base);
    var out := Rewritten(data, Chain(o, 0, path), at, at, bytes, base);
    ShiftKeepsEntry(o, path, base + at, |bytes|);
    ClosedInjection(data, o, path, e, at, bytes, base, s, out);
  }

  lemma ClosedRoom(o: Tree, path: seq<nat>, e: Tree, at: nat, n: nat)
    requires ValidPath(o, path) && PathFits(o, path, n)
    requires var c := Sub(o, path);
             && c.kind == e.kind && Size(c) == Size(e) && at == KidsPos(e, SubPos(o, 0, path))
    ensures EditIn(o, path, at, at, n)
  {
    hide PathFits;
  }

  lemma ClosedInjection(data: seq<byte>, o: Tree, path: seq<nat>, e: Tree, at: nat, bytes: seq<byte>, base: nat,
                        s: seq<byte>, out: seq<byte>)
    requires IsMoov(data, o) && FindEntry(o.kids) == Some(path) && EditIn(o, path, at, at, |bytes|)
    requires AllInBuffer(Chain(o, 0, path), data) && at <= |data|
    requires out == Rewritten(data, Chain(o, 0, path), at, at, bytes, base)
    requires var m := ShiftMoov(o, base + at, |bytes|);
             && ValidPath(m, path) && IsMoov(s, m) && SubPos(m, 0, path) == SubPos(o, 0, path)
             && EditDone(s, out, m, path, at, at, bytes) && Sub(m, path) == Sub(o, path)
    requires EntryShaped(e) && Version(e) != 1 && IsDac4(bytes) && at == KidsPos(e, SubPos(o, 0, path))
    requires var c := Sub(o, path);
             && c.kind == e.kind && c.typ == AC4 && c.kids == Nil
             && |e.fixed| <= |c.fixed| && c.fixed[..|e.fixed|] == e.fixed
    ensures AllShifted(ChunkOffsets(data), ChunkOffsets(out), base + at, |bytes|)
    ensures Settled(out) && ConfigOf(out) == Some(if Read32(bytes, 0) == 0 then out[at..] else bytes)
    ensures out[at..at + |bytes|] == bytes && Tiled(out)
  {
    hide Tiled;
    hide IsMoov, Parses, Shaped, FindEntry, TreeOffsets, Rewritten, AllShifted, PathFits, Version, EntryShaped;
    hide EditDone;
    hide AllInBuffer, IsDac4, Settled, ConfigOf, ChunkOffsets;
    hide ShiftMoov, SameShape, Replace, Sub, SubPos, Chain, ValidPath, Find, Around, TargetCut;
    var m, c, pos := ShiftMoov(o, base + at, |bytes|), Sub(o, path), SubPos(o, 0, path);
    var h := pos + HdrLen(c.kind);
    InsStands(s, out, m, path, at, at, bytes);
    ClosedPut(s, out, m, path, at, bytes);
    var u := Tree(Explicit(c.kind), AC4, out[h..h + |c.fixed| + |bytes|], Nil);
    ClosedSize(c, u, |bytes|);
    ClosedShaped(u);
    EntryEdited(data, o, path, at, at, bytes, base, s, u);
    var r := Replace(m, path, u, true);
    ReplacedSub(m, path, u, true, 0);
    TiledBy(out, r);
    OffsetsOf(data, o);
    OffsetsOf(out, r);
    ConfigRead(out, r, path, e, at, bytes);
  }

  lemma ClosedSize(c: Tree, u: Tree, n: nat)
    requires c.kids == Nil && u.kids == Nil && |u.fixed| == |c.fixed| + n && u.kind == Explicit(c.kind)
    ensures Size(c) == HdrLen(c.kind) + |c.fixed| && Size(u) == Size(c) + n
  {
  }

  // ----- the pass as a whole -----

  /** The second half of the pass, in terms of the tree. */
  lemma ConfiguredIs(data: seq<byte>, moov: Tree, path: seq<nat>, base: nat, source: Option<seq<byte>>)
    requires Editable(data, moov, path)
    ensures AllInBuffer(Chain(moov, 0, path), data) && ConfigAt(moov, path) <= |data|
    ensures var e, at := Sub(moov, path), ConfigAt(moov, path);
            Configured(data, base, source)
            == if FirstIndex(e.kids, DAC4) < Count(e.kids) then Moov(data)
               else match SourceConfig(source)
                    case Found(bytes) => Moov(Rewritten(data, Chain(moov, 0, path), at, at, bytes, base))
                    case missing => NoSource(missing)
  {
    hide Parses, Shaped, FindEntry, Rewritten, Locate, SourceConfig, HeaderLen, FindChild, EntryShaped, Sub, SubPos;
    hide ValidPath, Find;
    LocateIs(data, moov);
    ChainIn(data, moov, path);
    EntryIn(data, moov, path);
    EntryPath(moov, path);
    EntryBytes(data, SubPos(moov, 0, path), Sub(moov, path));
    BoxParts(data, SubPos(moov, 0, path), Sub(moov, path));
    WalkFinds(data, ConfigAt(moov, path), Sub(moov, path).kids, DAC4);
  }

  function Normal(moov: Tree, path: seq<nat>, base: nat): Tree
    requires ValidPath(moov, path) && EntryShaped(Sub(moov, path))
  {
    if Version(Sub(moov, path)) == 1 then NormalTree(moov, path, base) else moov
  }

  predicate HasConfig(moov: Tree, path: seq<nat>)
    requires ValidPath(moov, path)
  {
    FirstIndex(Sub(moov, path).kids, DAC4) < Count(Sub(moov, path).kids)
  }

  /** The tree and the offsets after the first half of the pass. */
  lemma NormalParses(data: seq<byte>, moov: Tree, path: seq<nat>, base: nat)
    requires Editable(data, moov, path) && PathFits(moov, path, -16)
    requires ApartFrom(ChunkOffsets(data), base, |data|) && RoomFor(ChunkOffsets(data), base + |data|, 0)
    ensures var n, dst := Normal(moov, path, base), Normalized(data, base);
            && Editable(dst, n, path) && Version(Sub(n, path)) != 1
            && HasConfig(n, path) == HasConfig(moov, path) && |dst| <= |data|
            && AllMove(ChunkOffsets(data), ChunkOffsets(dst), base, |data|, |dst|)
  {
    hide IsMoov, TreeOffsets, AllShifted, PathFits, Normalized, FindEntry, ChunkOffsets, NormalTree, Replace, Sub;
    hide ApartFrom, RoomFor, AllMove, Find, ValidPath, SubPos;
    OffsetsOf(data, moov);
    NormalizedIs(data, moov, path, base);
    if Version(Sub(moov, path)) == 1 {
      EntryIn(data, moov, path);
      StrippedShaped(Sub(moov, path));
      NormalizedParses(data, moov, path, base);
      OffsetsOf(Normalized(data, base), NormalTree(moov, path, base));
      ShiftedMoves(ChunkOffsets(data), ChunkOffsets(Normalized(data, base)), base, EntryAt(moov, path) + 28, |data|,
                   -16);
    } else {
      NoMove(ChunkOffsets(data), base, |data|);
    }
  }

  lemma NoMove(es: seq<Entry>, base: nat, len: nat)
    ensures AllMove(es, es, base, len, len)
  {
  }

  /** The bytes the pass adds. */
  function Wanted(moov: Tree, path: seq<nat>, source: Option<seq<byte>>): seq<byte>
    requires ValidPath(moov, path)
  {
    if HasConfig(moov, path) then []
    else match SourceConfig(source)
         case Found(bytes) => bytes
         case _ => []
  }

  /** A tiled moov with a well-formed AC-4 entry; a source with a configuration box, if one is
      needed; sizes and offsets with room for it; no offset into the moov. */
  ghost predicate Ready(data: seq<byte>, moov: Tree, path: seq<nat>, base: nat, source: Option<seq<byte>>) {
    && Editable(data, moov, path) && PathFits(moov, path, -16)
    && (!HasConfig(moov, path) ==>
          && SourceConfig(source).Found?
          && PathFits1(Normal(moov, path, base), path, |SourceConfig(source).bytes|))
    && ApartFrom(ChunkOffsets(data), base, |data|)
    && RoomFor(ChunkOffsets(data), base + |data|, |Wanted(moov, path, source)|)
  }

  ghost predicate PathFits1(t: Tree, path: seq<nat>, delta: int) {
    ValidPath(t, path) && PathFits(t, path, delta)
  }

  /** The tree the pass should leave: the extension of a version-1 entry gone, and the box of the source
      put in unless there already is one. */
  ghost function FinalTree(moov: Tree, path: seq<nat>, base: nat, source: Option<seq<byte>>): Tree
    requires ValidPath(moov, path) && EntryShaped(Sub(moov, path))
  {
    var n, bytes := Normal(moov, path, base), Wanted(moov, path, source);
    if IsDac4(bytes) && ValidPath(n, path) then ConfiguredTree(n, path, ConfigTree(bytes), base) else n
  }

  /** The copied box keeps its end: it says where it ends, or nothing stands behind the entry's fields. */
  predicate Closes(bytes: seq<byte>, at: nat, len: nat) {
    |bytes| >= 4 && (Read32(bytes, 0) != 0 || at == len)
  }

  lemma RoomForLess(es: seq<Entry>, from: nat, more: nat)
    requires RoomFor(es, from, more)
    ensures RoomFor(es, from, 0)
  {
  }

  lemma ConfiguredSub(moov: Tree, path: seq<nat>, cfg: Tree, base: nat)
    requires FindEntry(moov.kids) == Some(path) && ValidPath(moov, path)
    ensures var r := ConfiguredTree(moov, path, cfg, base);
            && ValidPath(r, path) && Sub(r, path) == WithConfig(Sub(moov, path), cfg)
            && SubPos(r, 0, path) == SubPos(moov, 0, path)
  {
    hide ShiftMoov, Replace, Sub, SubPos, ValidPath, Find, FindEntry;
    var at := base + ConfigAt(moov, path);
    ShiftKeepsEntry(moov, path, at, Size(cfg));
    ShiftedShape(moov, at, Size(cfg));
    ShapePath(moov, ShiftMoov(moov, at, Size(cfg)), 0, path, 0);
    ReplacedSub(ShiftMoov(moov, at, Size(cfg)), path, WithConfig(Sub(moov, path), cfg), true, 0);
  }

  /** Behind an open-ended box there is nothing, so it cannot be a child with bytes behind it. */
  lemma OpenInside(out: seq<byte>, r: Tree, path: seq<nat>, e: Tree, cfg: Tree, at: nat)
    requires Editable(out, r, path) && Sub(r, path) == WithConfig(e, cfg) && at == KidsPos(e, SubPos(r, 0, path))
    requires cfg.kind == ToEnd && cfg.kids == Nil
    ensures at + Size(cfg) == |out|
  {
    hide IsMoov, FindEntry, Sub, SubPos, ValidPath, Find, Parses, EntryShaped;
    ChainIn(out, r, path);
    BoxParts(out, SubPos(r, 0, path), WithConfig(e, cfg));
    EndsAtEnd(out, at, cfg);
  }

  /** The moov parses as the configured tree exactly if the box keeps its end. */
  lemma ConfiguredParsesIff(data: seq<byte>, moov: Tree, path: seq<nat>, bytes: seq<byte>, base: nat)
    requires Editable(data, moov, path) && IsDac4(bytes) && PathFits(moov, path, |bytes|)
    ensures var at, r := ConfigAt(moov, path), ConfiguredTree(moov, path, ConfigTree(bytes), base);
            && AllInBuffer(Chain(moov, 0, path), data) && at <= |data|
            && (Editable(Rewritten(data, Chain(moov, 0, path), at, at, bytes, base), r, path)
                <==> Closes(bytes, at, |data|))
  {
    hide IsMoov, FindEntry, Rewritten, AllShifted, PathFits, IsDac4, TreeOffsets, ConfiguredTree;
    hide Sub, SubPos, Chain, ValidPath, Find, AllInBuffer, EntryShaped, Parses, WithConfig;
    var at, cfg := ConfigAt(moov, path), ConfigTree(bytes);
    Dac4Size(bytes);
    ConfigParses(bytes);
    EntryIn(data, moov, path);
    ChainIn(data, moov, path);
    ConfiguredSub(moov, path, cfg, base);
    var out, r := Rewritten(data, Chain(moov, 0, path), at, at, bytes, base), ConfiguredTree(moov, path, cfg, base);
    if Closes(bytes, at, |data|) {
      InjectedParses(data, moov, path, bytes, cfg, base);
    } else if Editable(out, r, path) {
      OpenInside(out, r, path, Sub(moov, path), cfg, at);
    }
  }

  /** The second half of the pass, on a normalised moov without the box. */
  lemma InjectedResult(dst: seq<byte>, n: Tree, path: seq<nat>, base: nat, source: Option<seq<byte>>)
    requires Editable(dst, n, path) && Version(Sub(n, path)) != 1 && !HasConfig(n, path)
    requires SourceConfig(source).Found? && PathFits(n, path, |SourceConfig(source).bytes|)
    requires ApartFrom(ChunkOffsets(dst), base, |dst|)
    requires RoomFor(ChunkOffsets(dst), base + |dst|, |SourceConfig(source).bytes|)
    ensures var bytes := SourceConfig(source).bytes;
            && IsDac4(bytes) && Configured(dst, base, source).Moov?
            && var r, out := ConfiguredTree(n, path, ConfigTree(bytes), base), Configured(dst, base, source).bytes;
               && Settled(out) && Tiled(out) && AllMove(ChunkOffsets(dst), ChunkOffsets(out), base, |dst|, |out|)
               && (ConfigOf(out) == Some(bytes) <==> Closes(bytes, ConfigAt(n, path), |dst|))
               && (Editable(out, r, path) <==> Closes(bytes, ConfigAt(n, path), |dst|))
  {
    hide Tiled;
    hide IsMoov, TreeOffsets, AllShifted, PathFits, FindEntry, ChunkOffsets, Replace, Sub, SourceConfig, Configured;
    hide Rewritten;
    hide ApartFrom, RoomFor, AllMove, Find, ValidPath, SubPos, IsConfig, IsDac4, ConfiguredTree, Chain, EntryShaped;
    hide Settled, ConfigOf;
    var bytes := SourceConfig(source).bytes;
    var at := ConfigAt(n, path);
    SourceConfigParses(source);
    Dac4Size(bytes);
    ConfiguredIs(dst, n, path, base, source);
    InjectedSettled(dst, n, path, bytes, base);
    ConfiguredParsesIff(dst, n, path, bytes, base);
    var out := Rewritten(dst, Chain(n, 0, path), at, at, bytes, base);
    ShiftedMoves(ChunkOffsets(dst), ChunkOffsets(out), base, at, |dst|, |bytes|);
    TailIs(out, at, bytes);
  }

  lemma TailIs(out: seq<byte>, at: nat, bytes: seq<byte>)
    requires at + |bytes| <= |out| && out[at..at + |bytes|] == bytes
    ensures out[at..] == bytes <==> at + |bytes| == |out|
  {
  }

  /** A moov that has the box and no extension. */
  lemma HasSettled(data: seq<byte>, moov: Tree, path: seq<nat>)
    requires Editable(data, moov, path) && HasConfig(moov, path) && Version(Sub(moov, path)) != 1
    ensures Settled(data)
  {
    hide Parses, Shaped, FindEntry, Locate, HeaderLen, FindChild, EntryShaped, Sub, SubPos, ValidPath, Find;
    hide HasExtension;
    LocateIs(data, moov);
    ChainIn(data, moov, path);
    EntryIn(data, moov, path);
    EntryPath(moov, path);
    EntryBytes(data, SubPos(moov, 0, path), Sub(moov, path));
    BoxParts(data, SubPos(moov, 0, path), Sub(moov, path));
    WalkFinds(data, ConfigAt(moov, path), Sub(moov, path).kids, DAC4);
  }

  /** Whether the copied box keeps its end can be seen before the pass. */
  lemma ClosesBefore(data: seq<byte>, moov: Tree, path: seq<nat>, base: nat, bytes: seq<byte>)
    requires Editable(data, moov, path) && PathFits(moov, path, -16)
    requires ValidPath(Normal(moov, path, base), path)
    ensures Closes(bytes, ConfigAt(Normal(moov, path, base), path), |Normalized(data, base)|)
         == Closes(bytes, ConfigAt(moov, path), |data|)
  {
    hide IsMoov, FindEntry, Rewritten, PathFits, Normalized, NormalTree, Sub, SubPos, ValidPath, Find, Chain, Overwrite;
    NormalizedIs(data, moov, path, base);
    if Version(Sub(moov, path)) == 1 {
      EntryIn(data, moov, path);
      StrippedShaped(Sub(moov, path));
      NormalPlace(moov, path, base);
    }
  }

  /** Which outcome the pass has: a moov without an AC-4 entry is left alone; one with a well-formed entry
      fails exactly if it needs a configuration box and the source has none, and says what is missing. */
  lemma OutcomeIff(data: seq<byte>, moov: Tree, path: seq<nat>, base: nat, source: Option<seq<byte>>)
    requires IsMoov(data, moov)
    ensures FindEntry(moov.kids).None? ==> Ensure(data, base, source) == NotAc4
    ensures && Editable(data, moov, path) && PathFits(moov, path, -16)
            && ApartFrom(ChunkOffsets(data), base, |data|) && RoomFor(ChunkOffsets(data), base + |data|, 0) ==>
              && !Ensure(data, base, source).NotAc4? && !Ensure(data, base, source).Malformed?
              && (Ensure(data, base, source).NoSource? <==> !HasConfig(moov, path) && !SourceConfig(source).Found?)
              && (Ensure(data, base, source).NoSource? ==> Ensure(data, base, source).missing == SourceConfig(source))
  {
    hide IsMoov, PathFits, ChunkOffsets, Normalized, Configured, Locate, SourceConfig, Normal, Rewritten, Find;
    hide FindEntry, ApartFrom, RoomFor, AllMove, ValidPath, Sub, SubPos, EntryShaped, Chain, ConfigAt;
    LocateIs(data, moov);
    if && Editable(data, moov, path) && PathFits(moov, path, -16)
       && ApartFrom(ChunkOffsets(data), base, |data|) && RoomFor(ChunkOffsets(data), base + |data|, 0) {
      EditableParts(data, moov, path);
      NormalParses(data, moov, path, base);
      ConfiguredIs(Normalized(data, base), Normal(moov, path, base), path, base, source);
    }
  }

  /** The bytes of an entry's own fields, by its version. */
  function FieldsLen(version: nat): nat {
    if version == 1 then 44 else if version == 2 then 64 else 28
  }

  /** An entry that is not normalised is an error exactly if its fields are not all there. */
  lemma MalformedIff(data: seq<byte>, base: nat, source: Option<seq<byte>>)
    requires Locate(data).Some? && InBuffer(Locate(data).value[6], data)
    requires !HasExtension(data, Locate(data).value[6])
    ensures var entry := Locate(data).value[6];
            var fields := data[entry.Body()..entry.End()];
            Ensure(data, base, source) == Malformed
            <==> |fields| < 10 || |fields| < FieldsLen(FromBE(fields[8..10]))
  {
    hide Locate, Rewritten, SourceConfig, FindChild, FromBE;
    var entry := Locate(data).value[6];
    assert entry in Locate(data).value;
    if entry.Body() + 10 <= entry.End() {
      SliceOfSlice(data, entry.Body(), entry.End(), 8, 10);
    }
  }

  /** What the pass leaves of a ready moov, before it is put back into the file. */
  lemma EnsureMoves(data: seq<byte>, moov: Tree, path: seq<nat>, base: nat, source: Option<seq<byte>>)
    requires Ready(data, moov, path, base, source)
    ensures Ensure(data, base, source).Moov?
    ensures var out, r := Ensure(data, base, source).bytes, FinalTree(moov, path, base, source);
            && Settled(out) && Tiled(out) && AllMove(ChunkOffsets(data), ChunkOffsets(out), base, |data|, |out|)
            && if HasConfig(moov, path) then Editable(out, r, path)
               else && (Editable(out, r, path) <==> Closes(SourceConfig(source).bytes, ConfigAt(moov, path), |data|))
                    && (ConfigOf(out) == Some(SourceConfig(source).bytes)
                        <==> Closes(SourceConfig(source).bytes, ConfigAt(moov, path), |data|))
  {
    hide Tiled;
    hide IsMoov, AllShifted, PathFits, FindEntry, ChunkOffsets, Replace, Sub, SourceConfig, Configured, Rewritten;
    hide Normalized, Normal;
    hide ApartFrom, RoomFor, AllMove, Find, SubPos, ConfiguredTree, Chain, EntryShaped, Locate, Read32, ConfigTree;
    hide Settled, ConfigOf;
    hide Closes, IsDac4;
    var n, dst := Normal(moov, path, base), Normalized(data, base);
    RoomForLess(ChunkOffsets(data), base + |data|, |Wanted(moov, path, source)|);
    LocateIs(data, moov);
    NormalParses(data, moov, path, base);
    ConfiguredIs(dst, n, path, base, source);
    if HasConfig(moov, path) {
      HasSettled(dst, n, path);
      TiledBy(dst, n);
      NoDac4(Wanted(moov, path, source));
    } else {
      var bytes := SourceConfig(source).bytes;
      MovedApart(ChunkOffsets(data), ChunkOffsets(dst), base, |data|, |dst|, |bytes|);
      InjectedResult(dst, n, path, base, source);
      MovedTwice(ChunkOffsets(data), ChunkOffsets(dst), ChunkOffsets(Configured(dst, base, source).bytes),
                 base, |data|, |dst|, |Configured(dst, base, source).bytes|);
      ClosesBefore(data, moov, path, base, bytes);
    }
  }

  lemma NoDac4(bytes: seq<byte>)
    requires bytes == []
    ensures !IsDac4(bytes)
  {
  }

  /** The AC-4 pass on the moov of a file. Whatever the size field of the source's box: the entry has no
      version-1 extension and has a configuration box, every chunk offset addresses the bytes it
      addressed before, the moov is tiled, and a second pass, with any source, changes nothing. The moov
      parses as the expected tree, and the box found is the source's, byte for byte, exactly if that box
      does not say "to the end" or is put at the end of the moov. */
  lemma EnsureResult(pre: seq<byte>, data: seq<byte>, post: seq<byte>, moov: Tree, path: seq<nat>,
                     source: Option<seq<byte>>, again: Option<seq<byte>>)
    requires Ready(data, moov, path, |pre|, source)
    ensures Ensure(data, |pre|, source).Moov?
    ensures var out := Ensure(data, |pre|, source).bytes;
            && Settled(out) && Tiled(out) && SamplesKept(pre, data, out, post, ChunkOffsets(data), ChunkOffsets(out))
            && Ensure(out, |pre|, again) == Moov(out)
    ensures var out, r := Ensure(data, |pre|, source).bytes, FinalTree(moov, path, |pre|, source);
            if HasConfig(moov, path) then Editable(out, r, path)
            else && (Editable(out, r, path) <==> Closes(SourceConfig(source).bytes, ConfigAt(moov, path), |data|))
                 && (ConfigOf(out) == Some(SourceConfig(source).bytes)
                     <==> Closes(SourceConfig(source).bytes, ConfigAt(moov, path), |data|))
  {
    hide Tiled;
    hide IsMoov, PathFits, FindEntry, ChunkOffsets, Replace, Sub, SourceConfig, Ensure, Normal, FinalTree, Settled;
    hide ConfigOf;
    hide RoomFor, AllMove, Find, SubPos, EntryShaped, SamplesKept, HasConfig, Closes, ConfigAt, Editable, Wanted;
    EnsureMoves(data, moov, path, |pre|, source);
    var out := Ensure(data, |pre|, source).bytes;
    SettledStays(out, |pre|, again);
    MovedKeepsSamples(pre, data, out, post, ChunkOffsets(data), ChunkOffsets(out));
  }
}
