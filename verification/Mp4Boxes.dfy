/**
 ISO base media boxes over a byte buffer: reading a box header, walking children,
 shifting the chunk-offset tables in place, and growing box sizes in place. Every
 loop is proved against a function of the buffer's bytes.
 */
module Mp4Boxes {
  import opened Bytes

  /** A four-character code, as the 32-bit number its four bytes spell. */
  type FourCc = nat

  const MOOV: FourCc := 0x6D6F6F76  // "moov"
  const TRAK: FourCc := 0x7472616B  // "trak"
  const MDIA: FourCc := 0x6D646961  // "mdia"
  const MINF: FourCc := 0x6D696E66  // "minf"
  const STBL: FourCc := 0x7374626C  // "stbl"
  const STSD: FourCc := 0x73747364  // "stsd"
  const STCO: FourCc := 0x7374636F  // "stco"
  const CO64: FourCc := 0x636F3634  // "co64"
  const AC4: FourCc := 0x61632D34  // "ac-4"
  const DAC4: FourCc := 0x64616334  // "dac4"
  const UDTA: FourCc := 0x75647461  // "udta"

  /** The way from a track to its sample table. */
  const TO_STBL: seq<FourCc> := [MDIA, MINF, STBL]

  const INT64_LIMIT := 0x8000_0000_0000_0000

  /** A view of one box: where it starts, its whole size, the length of its header, its type. */
  datatype Box = Box(offset: nat, size: nat, hdr: nat, typ: FourCc) {
    function Body(): nat { offset + hdr }
    function End(): nat { offset + size }
  }

  ghost predicate InBuffer(b: Box, data: seq<byte>) {
    (b.hdr == 8 || b.hdr == 16) && b.hdr <= b.size && b.End() <= |data|
  }

  /** The 32-bit number at pos: a size field or a type. */
  function Read32(data: seq<byte>, pos: nat): nat
    requires pos + 4 <= |data|
  {
    FromBE(data[pos..pos + 4])
  }

  /** Size field 1 announces a 64-bit size, size field 0 a box that runs to the end of the buffer. */
  function ReadBox(data: seq<byte>, pos: int): (r: Option<Box>)
    ensures r.Some? ==> r.value.offset == pos && InBuffer(r.value, data)
  {
    if pos < 0 || pos + 8 > |data| then None else
    var field, typ := Read32(data, pos), Read32(data, pos + 4);
    if field == 1 && pos + 16 > |data| then None else
    var size := if field == 1 then FromBE(data[pos + 8..pos + 16]) else if field == 0 then |data| - pos else field;
    var hdr := if field == 1 then 16 else 8;
    if size < hdr || pos + size > |data| then None
    else Some(Box(pos, size, hdr, typ))
  }

  /** The first child of this type between start and end. */
  function FindChild(data: seq<byte>, start: int, end: int, typ: FourCc): (r: Option<Box>)
    ensures r.Some? ==> start <= r.value.offset && InBuffer(r.value, data) && r.value.typ == typ
    ensures r.Some? ==> r == ReadBox(data, r.value.offset)
    decreases end - start
  {
    if start + 8 > end then None else
    match ReadBox(data, start)
    case None => None
    case Some(b) => if b.typ == typ then Some(b) else FindChild(data, b.End(), end, typ)
  }

  method FindChildMp4(data: seq<byte>, start: int, end: int, typ: FourCc) returns (r: Option<Box>)
    ensures r == FindChild(data, start, end, typ)
  {
    hide ReadBox;
    var pos := start;
    while pos + 8 <= end
      invariant FindChild(data, pos, end, typ) == FindChild(data, start, end, typ)
      decreases end - pos
    {
      var b := ReadBox(data, pos);
      if b.None? { return None; }
      if b.value.typ == typ { return b; }
      pos := b.value.End();
    }
    return None;
  }

  /** Children start after the header; those of stsd after version, flags and entry count. */
  function ChildStart(b: Box): nat {
    if b.typ == STSD then b.Body() + 8 else b.Body()
  }

  /** The box reached by taking the first child of each of these types in turn, and the boxes above it. */
  function Descend(data: seq<byte>, b: Box, types: seq<FourCc>): (r: Option<seq<Box>>)
    ensures r.Some? ==> |r.value| == |types| + 1 && r.value[0] == b
    ensures r.Some? && InBuffer(b, data) ==> AllInBuffer(r.value, data)
    decreases |types|
  {
    if types == [] then Some([b]) else
    match FindChild(data, ChildStart(b), b.End(), types[0])
    case None => None
    case Some(c) =>
      match Descend(data, c, types[1..])
      case None => None
      case Some(chain) => Some([b] + chain)
  }

  // ----- chunk-offset tables -----

  /** One entry after the shift, as a field of `width` bytes stores it. 64-bit entries are signed. */
  function NewOffset(v: nat, width: nat, insertPos: int, delta: int): (n: nat)
    requires v < Pow256(width)
    ensures n < Pow256(width)
  {
    if v >= insertPos && (width == 8 ==> v < INT64_LIMIT) then (v + delta) % Pow256(width) else v
  }

  /** At most `count` entries at the front of `bytes`. */
  function Offsets(bytes: seq<byte>, width: nat, count: nat): (vs: seq<nat>)
    requires width > 0
    ensures forall v <- vs :: v < Pow256(width)
    decreases count
  {
    if count == 0 || |bytes| < width then []
    else [FromBE(bytes[..width])] + Offsets(bytes[width..], width, count - 1)
  }

  function ShiftOffsets(bytes: seq<byte>, width: nat, count: nat, insertPos: int, delta: int): (r: seq<byte>)
    requires width > 0
    ensures |r| == |bytes|
    decreases count
  {
    if count == 0 || |bytes| < width then bytes
    else ToBE(NewOffset(FromBE(bytes[..width]), width, insertPos, delta), width)
         + ShiftOffsets(bytes[width..], width, count - 1, insertPos, delta)
  }

  /** The payload of a table: version and flags, the entry count, the entries. */
  function TableOffsets(payload: seq<byte>, width: nat): (vs: seq<nat>)
    requires width > 0
  {
    if |payload| < 8 then [] else Offsets(payload[8..], width, FromBE(payload[4..8]))
  }

  function ShiftTable(payload: seq<byte>, width: nat, insertPos: int, delta: int): (r: seq<byte>)
    requires width > 0
    ensures |r| == |payload|
  {
    if |payload| < 8 then payload
    else payload[..8] + ShiftOffsets(payload[8..], width, FromBE(payload[4..8]), insertPos, delta)
  }

  /** The table of this type in a sample table, shifted; the rest of the buffer as it was. */
  function ShiftNamed(data: seq<byte>, stbl: Box, typ: FourCc, width: nat, insertPos: int, delta: int): (r: seq<byte>)
    requires width > 0
    ensures |r| == |data|
  {
    match FindChild(data, stbl.Body(), stbl.End(), typ)
    case None => data
    case Some(b) =>
      Overwrite(data, b.Body(), ShiftTable(data[b.Body()..b.End()], width, insertPos, delta))
  }

  function ShiftTrak(data: seq<byte>, trak: Box, insertPos: int, delta: int): (r: seq<byte>)
    ensures |r| == |data|
  {
    match Descend(data, trak, TO_STBL)
    case None => data
    case Some(chain) =>
      ShiftNamed(ShiftNamed(data, chain[3], STCO, 4, insertPos, delta), chain[3], CO64, 8, insertPos, delta)
  }

  /** The shift of every track between pos and end; later headers are read from the shifted buffer. */
  function ShiftFrom(data: seq<byte>, pos: int, end: int, insertPos: int, delta: int): (r: seq<byte>)
    ensures |r| == |data|
    decreases end - pos
  {
    if pos + 8 > end then data else
    match ReadBox(data, pos)
    case None => data
    case Some(b) =>
      ShiftFrom(if b.typ == TRAK then ShiftTrak(data, b, insertPos, delta) else data, b.End(), end, insertPos, delta)
  }

  /** The buffer once the entries from p on are shifted too. */
  function Finished(data: seq<byte>, p: nat, end: nat, width: nat, left: nat, insertPos: int, delta: int)
    : (r: seq<byte>)
    requires p <= end <= |data| && width > 0
  {
    Overwrite(data, p, ShiftOffsets(data[p..end], width, left, insertPos, delta))
  }

  lemma FinishedStep(data: seq<byte>, p: nat, end: nat, width: nat, left: nat, insertPos: int, delta: int,
                     stored: seq<byte>)
    requires p + width <= end <= |data| && width > 0 && left > 0
    requires stored == ToBE(NewOffset(FromBE(data[p..p + width]), width, insertPos, delta), width)
    ensures Finished(Overwrite(data, p, stored), p + width, end, width, left - 1, insertPos, delta)
         == Finished(data, p, end, width, left, insertPos, delta)
  {
    hide ShiftOffsets, NewOffset;
    var rest := data[p + width..end];
    var next := Overwrite(data, p, stored);
    SliceOfSlice(data, p, end, 0, width);
    SliceOfSlice(data, p, end, width, end - p);
    OneOffset(data[p..end], width, left, insertPos, delta);
    assert next[p + width..end] == rest;
    OverwriteBehind(data, p, stored, ShiftOffsets(rest, width, left - 1, insertPos, delta));
  }

  lemma OneOffset(bytes: seq<byte>, width: nat, left: nat, insertPos: int, delta: int)
    requires width > 0 && left > 0 && width <= |bytes|
    ensures ShiftOffsets(bytes, width, left, insertPos, delta)
         == ToBE(NewOffset(FromBE(bytes[..width]), width, insertPos, delta), width)
            + ShiftOffsets(bytes[width..], width, left - 1, insertPos, delta)
  {
  }

  lemma FinishedEnd(data: seq<byte>, p: nat, end: nat, width: nat, left: nat, insertPos: int, delta: int)
    requires p <= end <= |data| && width > 0 && (left == 0 || p + width > end)
    ensures Finished(data, p, end, width, left, insertPos, delta) == data
  {
  }

  lemma FinishedTable(data: seq<byte>, b: Box, width: nat, insertPos: int, delta: int)
    requires InBuffer(b, data) && width > 0 && b.Body() + 8 <= b.End()
    ensures Finished(data, b.Body() + 8, b.End(), width, FromBE(data[b.Body() + 4..b.Body() + 8]), insertPos, delta)
         == Overwrite(data, b.Body(), ShiftTable(data[b.Body()..b.End()], width, insertPos, delta))
  {
    hide ShiftOffsets, Overwrite, FromBE;
    var from, payload := b.Body(), data[b.Body()..b.End()];
    TableParts(data, from, b.End());
    OverwriteSame(data, from, payload[..8],
                  ShiftOffsets(payload[8..], width, FromBE(payload[4..8]), insertPos, delta));
  }

  lemma TableParts(data: seq<byte>, from: nat, end: nat)
    requires from + 8 <= end <= |data|
    ensures var payload := data[from..end];
            && payload[..8] == data[from..from + 8] && payload[4..8] == data[from + 4..from + 8]
            && payload[8..] == data[from + 8..end]
  {
  }

  /** The shift loop over one table, in place. */
  method ShiftTableInPlace(buf: array<byte>, b: Box, width: nat, insertPos: int, delta: int)
    requires InBuffer(b, buf[..]) && width > 0
    modifies buf
    ensures buf[..] == Overwrite(old(buf[..]), b.Body(),
                                 ShiftTable(old(buf[b.Body()..b.End()]), width, insertPos, delta))
  {
    hide NewOffset, ShiftOffsets, ShiftTable, Finished, ToBE, FromBE, Pow256, Overwrite;
    assert buf[..][b.Body()..b.End()] == buf[b.Body()..b.End()];
    var p := b.Body() + 8;
    if p > b.End() {
      ShortTable(buf[..], b, width, insertPos, delta);
      return;
    }
    var count, i := FromBE(buf[b.Body() + 4..p]), 0;
    assert buf[..][b.Body() + 4..p] == buf[b.Body() + 4..p];
    FinishedTable(buf[..], b, width, insertPos, delta);
    ghost var goal := Finished(buf[..], p, b.End(), width, count, insertPos, delta);
    while i < count && p + width <= b.End()
      invariant 0 <= i <= count && 0 <= p <= b.End()
      invariant Finished(buf[..], p, b.End(), width, count - i, insertPos, delta) == goal
      decreases count - i
    {
      assert buf[..][p..p + width] == buf[p..p + width];
      FinishedStep(buf[..], p, b.End(), width, count - i, insertPos, delta,
                   ToBE(NewOffset(FromBE(buf[p..p + width]), width, insertPos, delta), width));
      ShiftEntryInPlace(buf, p, width, insertPos, delta);
      p, i := p + width, i + 1;
    }
    FinishedEnd(buf[..], p, b.End(), width, count - i, insertPos, delta);
  }

  lemma ShortTable(data: seq<byte>, b: Box, width: nat, insertPos: int, delta: int)
    requires InBuffer(b, data) && width > 0 && b.Body() + 8 > b.End()
    ensures Overwrite(data, b.Body(), ShiftTable(data[b.Body()..b.End()], width, insertPos, delta)) == data
  {
  }

  method ShiftEntryInPlace(buf: array<byte>, p: nat, width: nat, insertPos: int, delta: int)
    requires p + width <= buf.Length
    modifies buf
    ensures buf[..] == Overwrite(old(buf[..]), p,
                                 ToBE(NewOffset(FromBE(old(buf[p..p + width])), width, insertPos, delta), width))
  {
    hide ToBE, FromBE, Pow256;
    var v := FromBE(buf[p..p + width]);
    if v >= insertPos && (width == 8 ==> v < INT64_LIMIT) {
      Store(buf, p, ToBE((v + delta) % Pow256(width), width));
    } else {
      ToFromBE(buf[p..p + width]);
    }
  }

  /** shiftChunkOffsets: every stco and co64 entry at or beyond insertPos moves by delta. */
  method ShiftChunkOffsets(buf: array<byte>, moov: Box, insertPos: int, delta: int)
    modifies buf
    ensures buf[..] == ShiftFrom(old(buf[..]), moov.Body(), moov.End(), insertPos, delta)
  {
    hide ReadBox, ShiftTrak;
    var pos := moov.Body();
    while pos + 8 <= moov.End()
      invariant ShiftFrom(buf[..], pos, moov.End(), insertPos, delta)
             == ShiftFrom(old(buf[..]), moov.Body(), moov.End(), insertPos, delta)
      decreases moov.End() - pos
    {
      var b := ReadBox(buf[..], pos);
      if b.None? { return; }
      if b.value.typ == TRAK {
        ShiftTrakInPlace(buf, b.value, insertPos, delta);
      }
      pos := b.value.End();
    }
  }

  method ShiftTrakInPlace(buf: array<byte>, trak: Box, insertPos: int, delta: int)
    modifies buf
    ensures buf[..] == ShiftTrak(old(buf[..]), trak, insertPos, delta)
  {
    hide FindChild;
    var chain := Descend(buf[..], trak, TO_STBL);
    if chain.None? { return; }
    ShiftNamedInPlace(buf, chain.value[3], STCO, 4, insertPos, delta);
    ShiftNamedInPlace(buf, chain.value[3], CO64, 8, insertPos, delta);
  }

  method ShiftNamedInPlace(buf: array<byte>, stbl: Box, typ: FourCc, width: nat, insertPos: int, delta: int)
    requires width > 0
    modifies buf
    ensures buf[..] == ShiftNamed(old(buf[..]), stbl, typ, width, insertPos, delta)
  {
    hide FindChild, ShiftTable;
    var table := FindChildMp4(buf[..], stbl.Body(), stbl.End(), typ);
    if table.Some? {
      ShiftTableInPlace(buf, table.value, width, insertPos, delta);
    }
  }

  // ----- box sizes -----

  function FieldPos(b: Box): nat {
    if b.hdr == 16 then b.offset + 8 else b.offset
  }

  function FieldWidth(b: Box): nat {
    if b.hdr == 16 then 8 else 4
  }

  function GrownField(b: Box, delta: int): (s: seq<byte>)
    ensures |s| == FieldWidth(b)
  {
    ToBE((b.size + delta) % Pow256(FieldWidth(b)), FieldWidth(b))
  }

  function Grow(data: seq<byte>, b: Box, delta: int): (r: seq<byte>)
    requires InBuffer(b, data)
    ensures |r| == |data|
  {
    Overwrite(data, FieldPos(b), GrownField(b, delta))
  }

  method GrowBoxSize(buf: array<byte>, b: Box, delta: int)
    requires InBuffer(b, buf[..])
    modifies buf
    ensures buf[..] == Grow(old(buf[..]), b, delta)
  {
    hide ToBE, Pow256, Overwrite;
    if b.hdr == 16 {
      Store(buf, b.offset + 8, ToBE((b.size + delta) % Pow256(8), 8));
    } else {
      Store(buf, b.offset, ToBE((b.size + delta) % Pow256(4), 4));
    }
  }

  ghost predicate AllInBuffer(chain: seq<Box>, data: seq<byte>) {
    forall b <- chain :: InBuffer(b, data)
  }

  lemma InBufferTail(chain: seq<Box>, data: seq<byte>, other: seq<byte>)
    requires chain != [] && AllInBuffer(chain, data) && |other| == |data|
    ensures AllInBuffer(chain[1..], other)
  {
    forall b | b in chain[1..] ensures InBuffer(b, other) {
      assert b in chain;
    }
  }

  function GrowAll(data: seq<byte>, chain: seq<Box>, delta: int): (r: seq<byte>)
    requires AllInBuffer(chain, data)
    ensures |r| == |data|
    decreases |chain|
  {
    if chain == [] then data
    else
      var grown := Grow(data, chain[0], delta);
      InBufferTail(chain, data, grown);
      GrowAll(grown, chain[1..], delta)
  }

  method GrowChain(buf: array<byte>, chain: seq<Box>, delta: int)
    requires AllInBuffer(chain, buf[..])
    modifies buf
    ensures buf[..] == GrowAll(old(buf[..]), chain, delta)
  {
    hide Grow;
    for i := 0 to |chain|
      invariant AllInBuffer(chain, buf[..])
      invariant GrowAll(buf[..], chain[i..], delta) == GrowAll(old(buf[..]), chain, delta)
    {
      assert chain[i..][0] == chain[i] && chain[i..][1..] == chain[i + 1..];
      GrowBoxSize(buf, chain[i], delta);
    }
  }
}
