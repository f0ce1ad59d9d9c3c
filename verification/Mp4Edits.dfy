/**
 The edits of a moov held in memory: dropping the QuickTime version-1 sound extension,
 injecting the AC-4 configuration box, replacing or appending the iTunes metadata. All
 of them shift the chunk offsets, grow the boxes around the edit and splice.
 */
module Mp4Edits {
  import opened Bytes
  import opened Mp4Boxes

  /** The way from a track to its AC-4 sample entry. */
  const TO_AC4: seq<FourCc> := [MDIA, MINF, STBL, STSD, AC4]

  /** data with the bytes [from, to) replaced by ins. */
  function Spliced(data: seq<byte>, from: nat, to: nat, ins: seq<byte>): (out: seq<byte>)
    requires from <= to <= |data|
    ensures |out| == |data| - (to - from) + |ins|
  {
    data[..from] + ins + data[to..]
  }

  // ----- finding the entry -----

  /** moov, trak, mdia, minf, stbl, stsd and the entry: of the first track that has them all. */
  function LocateFrom(data: seq<byte>, moov: Box, pos: int): (r: Option<seq<Box>>)
    ensures r.Some? ==> |r.value| == 7 && r.value[0] == moov
    ensures r.Some? && InBuffer(moov, data) ==> AllInBuffer(r.value, data)
    decreases moov.End() - pos
  {
    if pos + 8 > moov.End() then None else
    match ReadBox(data, pos)
    case None => None
    case Some(b) =>
      var down := if b.typ == TRAK then Descend(data, b, TO_AC4) else None;
      if down.Some? then Some([moov] + down.value) else LocateFrom(data, moov, b.End())
  }

  function Locate(data: seq<byte>): (r: Option<seq<Box>>)
    ensures r.Some? ==> |r.value| == 7 && AllInBuffer(r.value, data)
  {
    match FindChild(data, 0, |data|, MOOV)
    case None => None
    case Some(moov) => LocateFrom(data, moov, moov.Body())
  }

  method LocateAc4Entry(data: seq<byte>) returns (r: Option<seq<Box>>)
    ensures r == Locate(data)
  {
    hide ReadBox, Descend, FindChild;
    var moov := FindChildMp4(data, 0, |data|, MOOV);
    if moov.None? { return None; }
    var pos := moov.value.Body();
    while pos + 8 <= moov.value.End()
      invariant LocateFrom(data, moov.value, pos) == Locate(data)
      decreases moov.value.End() - pos
    {
      var b := ReadBox(data, pos);
      if b.None? { return None; }
      if b.value.typ == TRAK {
        var down := Descend(data, b.value, TO_AC4);
        if down.Some? { return Some([moov.value] + down.value); }
      }
      pos := b.value.End();
    }
    return None;
  }

  /** The first place where the type and a readable header stand, wherever it is nested. */
  function FindBySignature(data: seq<byte>, i: nat, end: nat, typ: FourCc): (r: Option<Box>)
    requires end <= |data|
    ensures r.Some? ==> i <= r.value.offset <= end - 8 && r == ReadBox(data, r.value.offset) && r.value.typ == typ
    decreases end - i
  {
    if i + 8 > end then None else
    var b := ReadBox(data, i);
    if b.Some? && b.value.typ == typ then b else FindBySignature(data, i + 1, end, typ)
  }

  /** A readable header of this type stands at k. */
  predicate StandsAt(data: seq<byte>, k: nat, typ: FourCc) {
    var b := ReadBox(data, k);
    b.Some? && b.value.typ == typ
  }

  /** None stands at any position from `from` up to, but not at, `to`. */
  ghost predicate NoneStands(data: seq<byte>, from: nat, to: int, typ: FourCc) {
    forall k: nat :: from <= k < to ==> !StandsAt(data, k, typ)
  }

  /** The scan misses nothing: none stands in front of the place found, or anywhere if none is found. */
  lemma {:induction false} SignatureIsFirst(data: seq<byte>, i: nat, end: nat, typ: FourCc)
    requires end <= |data|
    ensures var r := FindBySignature(data, i, end, typ);
            NoneStands(data, i, if r.Some? then r.value.offset else end - 7, typ)
    decreases end - i
  {
    hide ReadBox;
    if i + 8 <= end && !StandsAt(data, i, typ) {
      SignatureIsFirst(data, i + 1, end, typ);
    }
  }

  method FindBoxBySignature(data: seq<byte>, start: nat, end: nat, typ: FourCc) returns (r: Option<Box>)
    requires end <= |data|
    ensures r == FindBySignature(data, start, end, typ)
    ensures r.Some? ==> start <= r.value.offset <= end - 8 && r == ReadBox(data, r.value.offset) && r.value.typ == typ
    ensures NoneStands(data, start, if r.Some? then r.value.offset else end - 7, typ)
  {
    hide Read32;
    SignatureIsFirst(data, start, end, typ);
    var i := start;
    while i + 8 <= end
      invariant FindBySignature(data, i, end, typ) == FindBySignature(data, start, end, typ)
      decreases end - i
    {
      if Read32(data, i + 4) == typ {
        var b := ReadBox(data, i);
        if b.Some? && b.value.typ == typ { return b; }
      }
      i := i + 1;
    }
    return None;
  }

  // ----- the common edit -----

  lemma StaysInBuffer(chain: seq<Box>, data: seq<byte>, other: seq<byte>)
    requires AllInBuffer(chain, data) && |other| == |data|
    ensures AllInBuffer(chain, other)
  {
  }

  /** Shift the chunk offsets from `at` on, grow the boxes of the chain, and put ins in the place
      of [at, to). base is where the buffer stands in the file. */
  function Rewritten(data: seq<byte>, chain: seq<Box>, at: nat, to: nat, ins: seq<byte>, base: nat): (out: seq<byte>)
    requires chain != [] && AllInBuffer(chain, data) && at <= to <= |data|
    ensures |out| == |data| - (to - at) + |ins|
  {
    var delta := |ins| - (to - at);
    var shifted := ShiftFrom(data, chain[0].Body(), chain[0].End(), base + at, delta);
    StaysInBuffer(chain, data, shifted);
    Spliced(GrowAll(shifted, chain, delta), at, to, ins)
  }

  method RewriteInPlace(buf: array<byte>, chain: seq<Box>, at: nat, to: nat, ins: seq<byte>, base: nat)
    returns (out: seq<byte>)
    requires chain != [] && AllInBuffer(chain, buf[..]) && at <= to <= buf.Length
    modifies buf
    ensures out == Rewritten(old(buf[..]), chain, at, to, ins, base)
  {
    hide ShiftFrom, GrowAll;
    var delta := |ins| - (to - at);
    ShiftChunkOffsets(buf, chain[0], base + at, delta);
    StaysInBuffer(chain, old(buf[..]), buf[..]);
    GrowChain(buf, chain, delta);
    out := buf[..at] + ins + buf[to..];
    assert buf[..][..at] == buf[..at] && buf[..][to..] == buf[to..];
  }

  // ----- dropping the QuickTime extension -----

  /** A version-1 sound entry whose 16-byte extension, behind the 28 bytes of version 0, is all there. */
  predicate HasExtension(data: seq<byte>, entry: Box)
    requires entry.End() <= |data|
  {
    && entry.Body() + 44 <= entry.End()
    && FromBE(data[entry.Body() + 8..entry.Body() + 10]) == 1
  }

  function Normalized(data: seq<byte>, base: nat): seq<byte> {
    match Locate(data)
    case None => data
    case Some(chain) =>
      var entry := chain[6];
      assert entry in chain;
      if !HasExtension(data, entry) then data else
      var plain := Overwrite(data, entry.Body() + 8, [0, 0]);
      StaysInBuffer(chain, data, plain);
      Rewritten(plain, chain, entry.Body() + 28, entry.Body() + 44, [], base)
  }

  method NormalizeAudioEntry(buf: array<byte>, base: nat) returns (out: seq<byte>)
    modifies buf
    ensures out == Normalized(old(buf[..]), base)
  {
    hide Locate, Rewritten;
    var chain := LocateAc4Entry(buf[..]);
    if chain.None? { return buf[..]; }
    var entry := chain.value[6];
    assert entry in chain.value;
    var verPos := entry.Body() + 8;
    if verPos + 2 > entry.End() { return buf[..]; }
    assert buf[..][verPos..verPos + 2] == buf[verPos..verPos + 2];
    if FromBE(buf[verPos..verPos + 2]) != 1 { return buf[..]; }
    var extStart := entry.Body() + 8 + 20;
    if extStart + 16 > entry.End() { return buf[..]; }
    Store(buf, verPos, [0, 0]);
    StaysInBuffer(chain.value, old(buf[..]), buf[..]);
    out := RewriteInPlace(buf, chain.value, extStart, extStart + 16, [], base);
  }

  // ----- the configuration box -----

  /** Where the children of a sound sample entry begin, behind its body start. */
  function HeaderLen(data: seq<byte>, entry: Box): Option<nat>
    requires entry.End() <= |data|
  {
    if entry.Body() + 10 > entry.End() then None else
    var version := FromBE(data[entry.Body() + 8..entry.Body() + 10]);
    var n := 28 + (if version == 1 then 16 else if version == 2 then 36 else 0);
    if entry.Body() + n > entry.End() then None else Some(n)
  }

  datatype Config = NoMoov | NoDac4 | Found(bytes: seq<byte>)

  /** The configuration box of the source file, whose moov is in the buffer. */
  function SourceConfig(source: Option<seq<byte>>): Config {
    if source.None? then NoMoov else
    match ReadBox(source.value, 0)
    case None => NoMoov
    case Some(moov) =>
      match FindBySignature(source.value, moov.Body(), moov.End(), DAC4)
      case None => NoDac4
      case Some(b) => Found(source.value[b.offset..b.End()])
  }

  /** What becomes of the file: left alone, an error, or its moov rewritten. */
  datatype Ensured = NotAc4 | Malformed | NoSource(missing: Config) | Moov(bytes: seq<byte>)

  /** The second half of the pass, on the normalised buffer. */
  function Configured(dst: seq<byte>, base: nat, source: Option<seq<byte>>): Ensured {
    match Locate(dst)
    case None => NotAc4
    case Some(chain) =>
      var entry := chain[6];
      assert entry in chain;
      match HeaderLen(dst, entry)
      case None => Malformed
      case Some(n) =>
        var at := entry.Body() + n;
        if FindChild(dst, at, entry.End(), DAC4).Some? then Moov(dst) else
        match SourceConfig(source)
        case Found(bytes) => Moov(Rewritten(dst, chain, at, at, bytes, base))
        case missing => NoSource(missing)
  }

  function Ensure(data: seq<byte>, base: nat, source: Option<seq<byte>>): Ensured {
    if Locate(data).None? then NotAc4 else Configured(Normalized(data, base), base, source)
  }

  method EnsureAc4ConfigBox(buf: array<byte>, base: nat, source: Option<seq<byte>>) returns (r: Ensured)
    modifies buf
    ensures r == Ensure(old(buf[..]), base, source)
  {
    hide Locate, Normalized, Configured;
    var before := LocateAc4Entry(buf[..]);
    if before.None? { return NotAc4; }
    var bytes := NormalizeAudioEntry(buf, base);
    var dst := new byte[|bytes|](i requires 0 <= i < |bytes| => bytes[i]);
    assert dst[..] == bytes;
    r := AddConfig(dst, base, source);
  }

  method AddConfig(dst: array<byte>, base: nat, source: Option<seq<byte>>) returns (r: Ensured)
    modifies dst
    ensures r == Configured(old(dst[..]), base, source)
  {
    hide Locate, FindBySignature, FindChild, Rewritten;
    var chain := LocateAc4Entry(dst[..]);
    if chain.None? { return NotAc4; }
    var entry := chain.value[6];
    assert entry in chain.value;
    var n := HeaderLen(dst[..], entry);
    if n.None? { return Malformed; }
    var at := entry.Body() + n.value;
    var present := FindChildMp4(dst[..], at, entry.End(), DAC4);
    if present.Some? { return Moov(dst[..]); }
    if source.None? { return NoSource(NoMoov); }
    var moov := ReadBox(source.value, 0);
    if moov.None? { return NoSource(NoMoov); }
    var box := FindBoxBySignature(source.value, moov.value.Body(), moov.value.End(), DAC4);
    if box.None? { return NoSource(NoDac4); }
    var out := RewriteInPlace(dst, chain.value, at, at, source.value[box.value.offset..box.value.End()], base);
    return Moov(out);
  }

  // ----- the metadata box -----

  /** A box with a 32-bit header: buildM4AAtom. */
  function Atom(typ: FourCc, payload: seq<byte>): (s: seq<byte>)
    ensures |s| == 8 + |payload|
  {
    ToBE(8 + |payload|, 4) + ToBE(typ, 4) + payload
  }

  /** The first udta of the moov replaced by the new one, or the new one appended at its end. */
  function WithUdta(data: seq<byte>, base: nat, udta: seq<byte>): seq<byte> {
    match FindChild(data, 0, |data|, MOOV)
    case None => data
    case Some(moov) =>
      match FindChild(data, moov.Body(), moov.End(), UDTA)
      case Some(b) => Rewritten(data, [moov], b.offset, b.End(), udta, base)
      case None => Rewritten(data, [moov], moov.End(), moov.End(), udta, base)
  }

  method WriteITunesMetadata(buf: array<byte>, base: nat, payload: seq<byte>) returns (out: seq<byte>)
    modifies buf
    ensures out == WithUdta(old(buf[..]), base, Atom(UDTA, payload))
  {
    hide FindChild, Atom, Rewritten;
    var moov := FindChildMp4(buf[..], 0, buf.Length, MOOV);
    if moov.None? { return buf[..]; }
    var udta := FindChildMp4(buf[..], moov.value.Body(), moov.value.End(), UDTA);
    if udta.Some? {
      out := RewriteInPlace(buf, [moov.value], udta.value.offset, udta.value.End(), Atom(UDTA, payload), base);
    } else {
      out := RewriteInPlace(buf, [moov.value], moov.value.End(), moov.value.End(), Atom(UDTA, payload), base);
    }
  }
}
