/**
 APEv2 tags: the item printer and parser, the header and footer, and the file
 rewrite. Main results: what WriteApeTags writes is what ReadApeTags reads, exactly
 when no key holds a NUL byte, and a second write leaves no trace of the first.
 */
module ApeTags {
  import opened Bytes

  const PREAMBLE: seq<byte> := [0x41, 0x50, 0x45, 0x54, 0x41, 0x47, 0x45, 0x58]  // "APETAGEX"
  const HEADER_SIZE := 32
  const ID3V1_SIZE := 128
  const VERSION_2 := 2000
  const VERSION_1 := 1000
  const MAX_ITEMS := 1000
  const FLAG_IS_HEADER := 0x2000_0000   // bit 29
  const FLAG_HAS_HEADER := 0x8000_0000  // bit 31
  const U32 := 0x1_0000_0000

  type uint32 = x: int | 0 <= x < U32

  datatype Item = Item(key: seq<byte>, value: seq<byte>, flags: uint32)

  datatype Tag = Tag(version: uint32, items: seq<Item>, readOnly: bool)

  datatype Result<+T> = Ok(value: T) | Err

  /** Slicing past the end of the data is a Go panic, not an error value. */
  datatype Parsed = Items(items: seq<Item>) | Panic

  predicate HasBit(flags: uint32, bit: nat)
    requires bit > 0
  {
    flags / bit % 2 == 1
  }

  // ----- items -----

  function LE32(n: nat): (s: seq<byte>)
    ensures |s| == 4
  {
    ToLE(n, 4)
  }

  function Read32(data: seq<byte>, pos: nat): (n: uint32)
    requires pos + 4 <= |data|
  {
    Pow256Values();
    FromLE(data[pos..pos + 4])
  }

  function MarshalItem(item: Item): (s: seq<byte>)
    ensures |s| == 9 + |item.key| + |item.value|
  {
    LE32(|item.value|) + LE32(item.flags) + item.key + [0] + item.value
  }

  function MarshalItems(items: seq<Item>): seq<byte> {
    if items == [] then [] else MarshalItem(items[0]) + MarshalItems(items[1..])
  }

  /** The first NUL at or after `pos`, or the end of the data. */
  function KeyEnd(data: seq<byte>, pos: nat): (e: nat)
    requires pos <= |data|
    ensures pos <= e <= |data|
    ensures forall k :: pos <= k < e ==> data[k] != 0
    ensures e < |data| ==> data[e] == 0
    decreases |data| - pos
  {
    if pos == |data| || data[pos] == 0 then pos else KeyEnd(data, pos + 1)
  }

  /** What the parser returns when `items` are behind it, at most `count` are to come and
      it stands at `pos`. */
  function ParseFrom(data: seq<byte>, pos: nat, count: nat, items: seq<Item>): Parsed
    requires pos <= |data|
    decreases count
  {
    if count == 0 || pos + 8 > |data| then Items(items) else
    var valueSize, flags := Read32(data, pos), Read32(data, pos + 4);
    if pos + 8 + valueSize > |data| then Items(items) else
    var keyEnd := KeyEnd(data, pos + 8);
    if keyEnd == |data| then Items(items) else
    var next := keyEnd + 1 + valueSize;
    if next > |data| then Panic
    else ParseFrom(data, next, count - 1, items + [Item(data[pos + 8..keyEnd], data[keyEnd + 1..next], flags)])
  }

  method FindKeyEnd(data: seq<byte>, pos: nat) returns (keyEnd: nat)
    requires pos <= |data|
    ensures keyEnd == KeyEnd(data, pos)
  {
    keyEnd := pos;
    while keyEnd < |data| && data[keyEnd] != 0
      invariant pos <= keyEnd <= |data|
      invariant KeyEnd(data, keyEnd) == KeyEnd(data, pos)
    {
      keyEnd := keyEnd + 1;
    }
  }

  /** parseAPEItems: the value size is bounded before the key is consumed, so a long key
      can push the value past the end of the data. */
  method ParseApeItems(data: seq<byte>, count: nat) returns (r: Parsed)
    ensures r == ParseFrom(data, 0, count, [])
  {
    hide Read32, KeyEnd;
    var items: seq<Item> := [];
    var pos: nat, i: nat := 0, 0;
    while i < count && pos < |data|
      invariant i <= count && pos <= |data|
      invariant ParseFrom(data, pos, count - i, items) == ParseFrom(data, 0, count, [])
    {
      if pos + 8 > |data| { break; }
      var valueSize, itemFlags := Read32(data, pos), Read32(data, pos + 4);
      if pos + 8 + valueSize > |data| { break; }
      var keyEnd := FindKeyEnd(data, pos + 8);
      if keyEnd >= |data| { break; }
      if keyEnd + 1 + valueSize > |data| { return Panic; }
      items := items + [Item(data[pos + 8..keyEnd], data[keyEnd + 1..keyEnd + 1 + valueSize], itemFlags)];
      pos := keyEnd + 1 + valueSize;
      i := i + 1;
    }
    r := Items(items);
  }

  // ----- header, footer and the whole tag -----

  function HeaderFooter(version: uint32, tagSize: uint32, itemCount: uint32, flags: uint32): (s: seq<byte>)
    ensures |s| == HEADER_SIZE
  {
    PREAMBLE + LE32(version) + LE32(tagSize) + LE32(itemCount) + LE32(flags) + [0, 0, 0, 0, 0, 0, 0, 0]
  }

  function VersionOrDefault(tag: Tag): uint32 {
    if tag.version != 0 then tag.version else VERSION_2
  }

  function TagSize(items: seq<Item>): nat {
    |MarshalItems(items)| + HEADER_SIZE
  }

  function Block(tag: Tag, flags: uint32): seq<byte> {
    HeaderFooter(VersionOrDefault(tag), TagSize(tag.items) % U32, |tag.items| % U32, flags)
  }

  function Marshal(tag: Tag): Result<seq<byte>> {
    if tag.items == [] then Err
    else Ok(Block(tag, FLAG_IS_HEADER + FLAG_HAS_HEADER) + MarshalItems(tag.items) + Block(tag, FLAG_HAS_HEADER))
  }

  method MarshalApeTag(tag: Tag) returns (r: Result<seq<byte>>)
    ensures r == Marshal(tag)
  {
    hide HeaderFooter, MarshalItem;
    if |tag.items| == 0 { return Err; }
    var itemsData: seq<byte> := [];
    for i := 0 to |tag.items|
      invariant itemsData + MarshalItems(tag.items[i..]) == MarshalItems(tag.items)
    {
      var item := tag.items[i];
      assert tag.items[i..][0] == item && tag.items[i..][1..] == tag.items[i + 1..];
      itemsData := itemsData + MarshalItem(item);
    }
    assert itemsData == MarshalItems(tag.items);
    var tagSize, itemCount := (|itemsData| + HEADER_SIZE) % U32, |tag.items| % U32;
    var version := VERSION_2;
    if tag.version != 0 {
      version := tag.version;
    }
    var header := HeaderFooter(version, tagSize, itemCount, FLAG_IS_HEADER + FLAG_HAS_HEADER);
    var footer := HeaderFooter(version, tagSize, itemCount, FLAG_HAS_HEADER);
    r := Ok(header + itemsData + footer);
  }

  // ----- reading -----

  /** readAPETagAtOffset. `None` stands for a panic while parsing. */
  function ReadAtOffset(file: seq<byte>, footerOffset: int): Option<Result<Tag>> {
    if footerOffset < 0 || footerOffset + HEADER_SIZE > |file| then Some(Err) else
    if file[footerOffset..footerOffset + 8] != PREAMBLE then Some(Err) else
    var version := Read32(file, footerOffset + 8);
    var tagSize := Read32(file, footerOffset + 12);
    var itemCount := Read32(file, footerOffset + 16);
    var flags := Read32(file, footerOffset + 20);
    if version != VERSION_2 && version != VERSION_1 then Some(Err) else
    if tagSize < HEADER_SIZE || itemCount > MAX_ITEMS || HasBit(flags, FLAG_IS_HEADER) then Some(Err) else
    var itemsOffset := footerOffset - (tagSize - HEADER_SIZE);
    if itemsOffset < 0 then Some(Err) else
    match ParseFrom(file[itemsOffset..footerOffset], 0, itemCount, [])
    case Panic => None
    case Items(items) => Some(Ok(Tag(version, items, HasBit(flags, 1))))
  }

  /** ReadAPETags: the footer is at the end of the file, or in front of an ID3v1 tag. */
  function Read(file: seq<byte>): Option<Result<Tag>> {
    if |file| < HEADER_SIZE then Some(Err) else
    match ReadAtOffset(file, |file| - HEADER_SIZE)
    case None => None
    case Some(Ok(tag)) => Some(Ok(tag))
    case Some(Err) =>
      if |file| > HEADER_SIZE + ID3V1_SIZE then ReadAtOffset(file, |file| - HEADER_SIZE - ID3V1_SIZE)
      else Some(Err)
  }

  // ----- writing -----

  function SizeAtOffset(file: seq<byte>, offset: int): Option<nat> {
    if offset < 0 || offset + HEADER_SIZE > |file| then None else
    if file[offset..offset + 8] != PREAMBLE then None else
    var flags := Read32(file, offset + 20);
    if HasBit(flags, FLAG_IS_HEADER) then None else
    var tagSize := Read32(file, offset + 12);
    var trailing := |file| - (offset + HEADER_SIZE);
    Some(tagSize + (if HasBit(flags, FLAG_HAS_HEADER) then HEADER_SIZE else 0) + trailing)
  }

  /** findExistingAPETagSize: the bytes at the end of the file that a rewrite drops. */
  function ExistingSize(file: seq<byte>): nat {
    match SizeAtOffset(file, |file| - HEADER_SIZE)
    case Some(n) => n
    case None =>
      if |file| > HEADER_SIZE + ID3V1_SIZE then
        match SizeAtOffset(file, |file| - HEADER_SIZE - ID3V1_SIZE)
        case Some(n) => n
        case None => 0
      else 0
  }

  /** The file without its detected tag; truncating to a negative size is an error. */
  function Stripped(file: seq<byte>): Result<seq<byte>> {
    if ExistingSize(file) > |file| then Err else Ok(file[..|file| - ExistingSize(file)])
  }

  function Write(file: seq<byte>, tag: Tag): Result<seq<byte>> {
    match (Stripped(file), Marshal(tag))
    case (Ok(base), Ok(bytes)) => Ok(base + bytes)
    case _ => Err
  }

  class ApeFile {
    var contents: seq<byte>

    constructor (bytes: seq<byte>)
      ensures contents == bytes
    {
      contents := bytes;
    }

    method FindExistingApeTagSize() returns (size: nat)
      ensures size == ExistingSize(contents)
    {
      hide SizeAtOffset;
      var offsets := [|contents| - HEADER_SIZE];
      if |contents| > HEADER_SIZE + ID3V1_SIZE {
        offsets := [|contents| - HEADER_SIZE, |contents| - HEADER_SIZE - ID3V1_SIZE];
      }
      for i := 0 to |offsets|
        invariant forall k :: 0 <= k < i ==> SizeAtOffset(contents, offsets[k]) == None
      {
        var found := SizeAtOffset(contents, offsets[i]);
        if found.Some? {
          assert i > 0 ==> SizeAtOffset(contents, offsets[0]) == None;
          return found.value;
        }
      }
      assert SizeAtOffset(contents, offsets[0]) == None && SizeAtOffset(contents, offsets[|offsets| - 1]) == None;
      return 0;
    }

    /** WriteAPETags: truncate the old tag away, append the new one. A failed write leaves
        the file as it was. */
    method WriteApeTags(tag: Tag) returns (ok: bool)
      modifies this
      ensures ok == Write(old(contents), tag).Ok?
      ensures contents == if ok then Write(old(contents), tag).value else old(contents)
    {
      hide ExistingSize, Marshal;
      var existingSize := FindExistingApeTagSize();
      var marshalled := MarshalApeTag(tag);
      if marshalled.Err? { return false; }
      if existingSize > 0 {
        var newSize := |contents| - existingSize;
        if newSize < 0 { return false; }
        contents := contents[..newSize];
      }
      assert contents == old(contents)[..|old(contents)| - existingSize];
      contents := contents + marshalled.value;
      ok := true;
    }
  }

  // ----- fields read back -----

  lemma Read32Back(data: seq<byte>, pos: nat, n: uint32)
    requires pos + 4 <= |data| && data[pos..pos + 4] == LE32(n)
    ensures Read32(data, pos) == n
  {
    Pow256Values();
    FromToLE(n, 4);
  }

  lemma FooterFields(file: seq<byte>, pos: nat, version: uint32, tagSize: uint32, itemCount: uint32, flags: uint32)
    requires pos + HEADER_SIZE <= |file|
    requires file[pos..pos + HEADER_SIZE] == HeaderFooter(version, tagSize, itemCount, flags)
    ensures file[pos..pos + 8] == PREAMBLE
    ensures Read32(file, pos + 8) == version && Read32(file, pos + 12) == tagSize
    ensures Read32(file, pos + 16) == itemCount && Read32(file, pos + 20) == flags
  {
    hide Read32, LE32;
    var footer := HeaderFooter(version, tagSize, itemCount, flags);
    SliceOfSlice(file, pos, pos + HEADER_SIZE, 0, 8);
    SliceOfSlice(file, pos, pos + HEADER_SIZE, 8, 12);
    SliceOfSlice(file, pos, pos + HEADER_SIZE, 12, 16);
    SliceOfSlice(file, pos, pos + HEADER_SIZE, 16, 20);
    SliceOfSlice(file, pos, pos + HEADER_SIZE, 20, 24);
    assert footer[0..8] == PREAMBLE;
    assert footer[8..12] == LE32(version) && footer[12..16] == LE32(tagSize);
    assert footer[16..20] == LE32(itemCount) && footer[20..24] == LE32(flags);
    Read32Back(file, pos + 8, version);
    Read32Back(file, pos + 12, tagSize);
    Read32Back(file, pos + 16, itemCount);
    Read32Back(file, pos + 20, flags);
  }

  lemma FlagBits()
    ensures HasBit(FLAG_HAS_HEADER, FLAG_HAS_HEADER) && !HasBit(FLAG_HAS_HEADER, FLAG_IS_HEADER)
    ensures !HasBit(FLAG_HAS_HEADER, 1)
  {
  }

  // ----- items read back -----

  predicate NulFree(key: seq<byte>) {
    0 !in key
  }

  predicate Fits(items: seq<Item>) {
    |items| <= MAX_ITEMS && TagSize(items) < U32
  }

  lemma MarshalledTail(item: Item)
    ensures MarshalItem(item) == LE32(|item.value|) + LE32(item.flags) + (item.key + [0] + item.value)
  {
    hide LE32;
    var a, b := LE32(|item.value|), LE32(item.flags);
    assert (a + b) + item.key + [0] + item.value == (a + b) + (item.key + [0] + item.value);
  }

  lemma ItemFields(data: seq<byte>, pos: nat, item: Item, rest: seq<byte>)
    requires pos <= |data| && data[pos..] == MarshalItem(item) + rest && |item.value| < U32
    ensures pos + |MarshalItem(item)| <= |data|
    ensures Read32(data, pos) == |item.value| && Read32(data, pos + 4) == item.flags
    ensures data[pos + 8..pos + 8 + |item.key|] == item.key && data[pos + 8 + |item.key|] == 0
    ensures data[pos + 9 + |item.key|..pos + |MarshalItem(item)|] == item.value
    ensures data[pos + |MarshalItem(item)|..] == rest
  {
    hide Read32, LE32;
    var tail := item.key + [0] + item.value;
    SplitTail(data, pos, MarshalItem(item), rest);
    MarshalledTail(item);
    ThreeFields(data, pos, LE32(|item.value|), LE32(item.flags), tail);
    ThreeFields(data, pos + 8, item.key, [0], item.value);
    Read32Back(data, pos, |item.value|);
    Read32Back(data, pos + 4, item.flags);
    assert data[pos + 8 + |item.key|..pos + 9 + |item.key|][0] == 0;
  }

  lemma {:induction false} KeyEndIs(data: seq<byte>, pos: nat, e: nat)
    requires pos <= e < |data| && data[e] == 0 && forall k :: pos <= k < e ==> data[k] != 0
    ensures KeyEnd(data, pos) == e
    decreases e - pos
  {
    if pos < e {
      KeyEndIs(data, pos + 1, e);
    }
  }

  /** Parsing one printed item whose key holds no NUL. */
  lemma ParseOne(data: seq<byte>, pos: nat, item: Item, rest: seq<byte>, count: nat, items: seq<Item>)
    requires pos <= |data| && data[pos..] == MarshalItem(item) + rest && |item.value| < U32
    requires NulFree(item.key) && count > 0
    ensures pos + |MarshalItem(item)| <= |data| && data[pos + |MarshalItem(item)|..] == rest
    ensures ParseFrom(data, pos, count, items)
         == ParseFrom(data, pos + |MarshalItem(item)|, count - 1, items + [item])
  {
    hide Read32, MarshalItem;
    ItemFields(data, pos, item, rest);
    var e := pos + 8 + |item.key|;
    forall k | pos + 8 <= k < e ensures data[k] != 0 {
      assert data[k] == data[pos + 8..e][k - pos - 8];
    }
    KeyEndIs(data, pos + 8, e);
  }

  lemma ParseNothing(data: seq<byte>, pos: nat, done: seq<Item>)
    requires pos <= |data|
    ensures ParseFrom(data, pos, 0, done) == Items(done + [])
  {
    assert done + [] == done;
  }

  lemma {:induction false} ParseBack(data: seq<byte>, pos: nat, todo: seq<Item>, done: seq<Item>)
    requires pos <= |data| && data[pos..] == MarshalItems(todo) && |MarshalItems(todo)| < U32
    requires forall i :: 0 <= i < |todo| ==> NulFree(todo[i].key)
    ensures ParseFrom(data, pos, |todo|, done) == Items(done + todo)
    decreases |todo|
  {
    hide ParseFrom, MarshalItem;
    if todo == [] {
      ParseNothing(data, pos, done);
    } else {
      ParseOne(data, pos, todo[0], MarshalItems(todo[1..]), |todo|, done);
      ParseBack(data, pos + |MarshalItem(todo[0])|, todo[1..], done + [todo[0]]);
      assert done + [todo[0]] + todo[1..] == done + todo;
    }
  }

  // ----- a NUL in a key breaks the round trip -----

  /** Whatever follows, the parser keeps the items it already has. */
  lemma {:induction false} ParseKeeps(data: seq<byte>, pos: nat, count: nat, items: seq<Item>)
    requires pos <= |data|
    ensures var r := ParseFrom(data, pos, count, items); r.Items? ==> items <= r.items
    decreases count
  {
    if count > 0 && pos + 8 <= |data| {
      var valueSize := Read32(data, pos);
      if pos + 8 + valueSize <= |data| && KeyEnd(data, pos + 8) < |data| {
        var next := KeyEnd(data, pos + 8) + 1 + valueSize;
        if next <= |data| {
          var item := Item(data[pos + 8..KeyEnd(data, pos + 8)], data[KeyEnd(data, pos + 8) + 1..next],
                           Read32(data, pos + 4));
          ParseKeeps(data, next, count - 1, items + [item]);
        }
      }
    }
  }

  lemma KeyCutShort(data: seq<byte>, pos: nat, key: seq<byte>)
    requires pos + |key| <= |data| && data[pos..pos + |key|] == key && !NulFree(key)
    ensures pos <= KeyEnd(data, pos) < pos + |key|
  {
    hide KeyEnd;
    var k :| 0 <= k < |key| && key[k] == 0;
    assert data[pos + k] == data[pos..pos + |key|][k] == 0;
  }

  /** An item whose key holds a NUL is read back with a shorter key. */
  lemma ParseNulKey(data: seq<byte>, pos: nat, item: Item, rest: seq<byte>, count: nat, items: seq<Item>)
    requires pos <= |data| && data[pos..] == MarshalItem(item) + rest && |item.value| < U32
    requires !NulFree(item.key) && count > 0
    ensures var r := ParseFrom(data, pos, count, items);
            r.Items? ==> |r.items| > |items| && r.items[|items|].key != item.key
  {
    hide Read32, MarshalItem, KeyEnd, NulFree;
    ItemFields(data, pos, item, rest);
    KeyCutShort(data, pos + 8, item.key);
    var e := KeyEnd(data, pos + 8);
    var next := e + 1 + |item.value|;
    var got := Item(data[pos + 8..e], data[e + 1..next], item.flags);
    assert |got.key| < |item.key|;
    assert ParseFrom(data, pos, count, items) == ParseFrom(data, next, count - 1, items + [got]);
    hide ParseFrom, KeyEnd;
    ParseKeeps(data, next, count - 1, items + [got]);
  }

  lemma {:induction false} ParseBackFails(data: seq<byte>, pos: nat, todo: seq<Item>, done: seq<Item>)
    requires pos <= |data| && data[pos..] == MarshalItems(todo) && |MarshalItems(todo)| < U32
    requires exists i :: 0 <= i < |todo| && !NulFree(todo[i].key)
    ensures ParseFrom(data, pos, |todo|, done) != Items(done + todo)
    decreases |todo|
  {
    hide ParseFrom, MarshalItem;
    var item := todo[0];
    if NulFree(item.key) {
      ParseOne(data, pos, item, MarshalItems(todo[1..]), |todo|, done);
      ParseBackFails(data, pos + |MarshalItem(item)|, todo[1..], done + [item]);
      assert done + [item] + todo[1..] == done + todo;
    } else {
      ParseNulKey(data, pos, item, MarshalItems(todo[1..]), |todo|, done);
      assert (done + todo)[|done|] == item;
    }
  }

  // ----- the whole file -----

  /** Where the parts of a freshly written file lie. */
  lemma WrittenLayout(base: seq<byte>, tag: Tag, file: seq<byte>)
    requires Marshal(tag).Ok? && file == base + Marshal(tag).value
    ensures |file| == |base| + HEADER_SIZE + TagSize(tag.items)
    ensures file[|file| - HEADER_SIZE..] == Block(tag, FLAG_HAS_HEADER)
    ensures file[|file| - TagSize(tag.items)..|file| - HEADER_SIZE] == MarshalItems(tag.items)
  {
    hide HeaderFooter, MarshalItems;
    var header, items, footer :=
      Block(tag, FLAG_IS_HEADER + FLAG_HAS_HEADER), MarshalItems(tag.items), Block(tag, FLAG_HAS_HEADER);
    assert file[|base|..] == header + items + footer;
    ThreeFields(file, |base|, header, items, footer);
  }

  /** The detected size of a freshly written tag is its own size, whatever it holds. */
  lemma WrittenSize(base: seq<byte>, tag: Tag, file: seq<byte>)
    requires Marshal(tag).Ok? && file == base + Marshal(tag).value && TagSize(tag.items) < U32
    ensures Stripped(file) == Ok(base)
  {
    hide HeaderFooter, MarshalItems, Read32;
    WrittenLayout(base, tag, file);
    FooterFields(file, |file| - HEADER_SIZE, VersionOrDefault(tag), TagSize(tag.items), |tag.items| % U32,
                 FLAG_HAS_HEADER);
    FlagBits();
    assert ExistingSize(file) == |file| - |base|;
    assert file[..|base|] == base;
  }

  /** Writing twice is the same as writing the second tag alone. */
  lemma WriteReplaces(file: seq<byte>, t1: Tag, t2: Tag)
    requires Write(file, t1).Ok? && TagSize(t1.items) < U32
    ensures Write(Write(file, t1).value, t2) == Write(file, t2)
  {
    WrittenSize(Stripped(file).value, t1, Write(file, t1).value);
  }

  predicate ReadableVersion(tag: Tag) {
    tag.version == 0 || tag.version == VERSION_1 || tag.version == VERSION_2
  }

  /** Reading a freshly written file parses exactly the item bytes that were printed. */
  lemma WrittenRead(base: seq<byte>, tag: Tag, file: seq<byte>)
    requires Marshal(tag).Ok? && file == base + Marshal(tag).value
    requires Fits(tag.items) && ReadableVersion(tag)
    ensures Read(file)
         == match ParseFrom(MarshalItems(tag.items), 0, |tag.items|, [])
            case Panic => None
            case Items(items) => Some(Ok(Tag(VersionOrDefault(tag), items, false)))
  {
    hide HeaderFooter, MarshalItems, Read32, ParseFrom;
    WrittenLayout(base, tag, file);
    FooterFields(file, |file| - HEADER_SIZE, VersionOrDefault(tag), TagSize(tag.items), |tag.items|, FLAG_HAS_HEADER);
    FlagBits();
  }

  predicate AllNulFree(items: seq<Item>) {
    forall i :: 0 <= i < |items| ==> NulFree(items[i].key)
  }

  /** Read-after-write, for every tag that is written: it comes back, version and items, exactly when the
      reader knows its version, it has at most 1000 items, its size fits 32 bits and no key holds a NUL. */
  lemma ReadAfterWrite(file: seq<byte>, tag: Tag)
    requires Write(file, tag).Ok?
    ensures Read(Write(file, tag).value)
            == Some(Ok(Tag(if tag.version == 0 then 2000 else tag.version, tag.items, false)))
       <==> ReadableVersion(tag) && Fits(tag.items) && AllNulFree(tag.items)
  {
    hide Read, Marshal, AllNulFree;
    var out := Write(file, tag).value;
    if ReadableVersion(tag) && Fits(tag.items) {
      WrittenRead(Stripped(file).value, tag, out);
      ItemsReadBack(tag.items);
    } else if Read(out) == Some(Ok(Tag(VersionOrDefault(tag), tag.items, false))) {
      ReadIsBounded(out, Tag(VersionOrDefault(tag), tag.items, false));
    }
  }

  lemma ItemsReadBack(items: seq<Item>)
    requires Fits(items)
    ensures ParseFrom(MarshalItems(items), 0, |items|, []) == Items(items) <==> AllNulFree(items)
  {
    hide ParseFrom, NulFree;
    var bytes := MarshalItems(items);
    assert bytes[0..] == bytes && [] + items == items;
    if AllNulFree(items) {
      ParseBack(bytes, 0, items, []);
    } else {
      ParseBackFails(bytes, 0, items, []);
    }
  }

  /** Version 3000 is written, and the file then reads as having no tag. */
  lemma UnknownVersionIsLost()
    ensures var tag := Tag(3000, [Item([0x41], [0x42], 0)], false);
            Write([], tag).Ok? && Read(Write([], tag).value) == Some(Err)
  {
    hide HeaderFooter, MarshalItem, Read32;
    var item := Item([0x41], [0x42], 0);
    var tag := Tag(3000, [item], false);
    assert tag.items[1..] == [] && |MarshalItems(tag.items)| == 11;
    assert ExistingSize([]) == 0;
    var out := Write([], tag).value;
    WrittenLayout([], tag, out);
    FooterFields(out, |out| - HEADER_SIZE, 3000, TagSize(tag.items), 1, FLAG_HAS_HEADER);
  }

  /** More than MAX_ITEMS items are never read back: no reader result holds that many. */
  lemma TooManyItems(file: seq<byte>, tag: Tag, got: Tag)
    requires Read(file) == Some(Ok(got)) && |tag.items| > 1000
    ensures got.items != tag.items
  {
    hide Read;
    ReadIsBounded(file, got);
  }

  /** Whatever is read has a known version and items that fit a tag. */
  lemma ReadIsBounded(file: seq<byte>, got: Tag)
    requires Read(file) == Some(Ok(got))
    ensures (got.version == VERSION_1 || got.version == VERSION_2) && Fits(got.items)
  {
    hide ReadAtOffset;
    var offset := if ReadAtOffset(file, |file| - HEADER_SIZE) == Some(Ok(got)) then |file| - HEADER_SIZE
                  else |file| - HEADER_SIZE - ID3V1_SIZE;
    ReadAtIsBounded(file, offset, got);
  }

  lemma ReadAtIsBounded(file: seq<byte>, offset: int, got: Tag)
    requires ReadAtOffset(file, offset) == Some(Ok(got))
    ensures (got.version == VERSION_1 || got.version == VERSION_2) && Fits(got.items)
  {
    hide Read32, ParseFrom;
    var itemsOffset := offset - (Read32(file, offset + 12) - HEADER_SIZE);
    ParseCount(file[itemsOffset..offset], 0, Read32(file, offset + 16), []);
  }

  lemma {:induction false} MarshalAppend(items: seq<Item>, item: Item)
    ensures MarshalItems(items + [item]) == MarshalItems(items) + MarshalItem(item)
    decreases items
  {
    hide MarshalItem;
    if items == [] {
      assert [] + [item] == [item] && [item][1..] == [];
    } else {
      assert (items + [item])[1..] == items[1..] + [item];
      MarshalAppend(items[1..], item);
    }
  }

  /** The parser returns no more items than announced, and none that did not fit the data. */
  lemma {:induction false} ParseCount(data: seq<byte>, pos: nat, count: nat, items: seq<Item>)
    requires pos <= |data|
    ensures var r := ParseFrom(data, pos, count, items);
            r.Items? ==> |r.items| <= |items| + count && |MarshalItems(r.items)| <= |MarshalItems(items)| + |data| - pos
    decreases count
  {
    hide Read32, KeyEnd, MarshalItem;
    if count > 0 && pos + 8 <= |data| && pos + 8 + Read32(data, pos) <= |data| {
      var e, valueSize := KeyEnd(data, pos + 8), Read32(data, pos);
      if e < |data| && e + 1 + valueSize <= |data| {
        var item := Item(data[pos + 8..e], data[e + 1..e + 1 + valueSize], Read32(data, pos + 4));
        MarshalAppend(items, item);
        ParseCount(data, e + 1 + valueSize, count - 1, items + [item]);
      }
    }
  }

  // ----- tags of other programs -----

  /** A tag as other programs write it, behind base: with or without a header, as its footer says, and with or
      without an ID3v1 tag behind it. */
  datatype Foreign = Foreign(
    base: seq<byte>, header: seq<byte>, body: seq<byte>, version: uint32, count: uint32, flags: uint32, id3: seq<byte>)

  predicate IsForeign(f: Foreign) {
    && |f.header| == (if HasBit(f.flags, FLAG_HAS_HEADER) then HEADER_SIZE else 0)
    && !HasBit(f.flags, FLAG_IS_HEADER) && |f.body| + HEADER_SIZE < U32
    && (f.id3 == [] || (|f.id3| == ID3V1_SIZE && f.id3[96..104] != PREAMBLE))
  }

  function Footer(f: Foreign): (s: seq<byte>)
    requires IsForeign(f)
    ensures |s| == HEADER_SIZE
  {
    HeaderFooter(f.version, |f.body| + HEADER_SIZE, f.count, f.flags)
  }

  function ForeignFile(f: Foreign): seq<byte>
    requires IsForeign(f)
  {
    f.base + f.header + f.body + Footer(f) + f.id3
  }

  /** There are more than an ID3v1 tag and a footer. */
  predicate IsFound(f: Foreign) {
    f.id3 == [] || f.base + f.header + f.body != []
  }

  lemma ForeignFields(f: Foreign, file: seq<byte>, at: nat)
    requires IsForeign(f) && file == ForeignFile(f) && at == |f.base + f.header + f.body|
    ensures at + HEADER_SIZE + |f.id3| == |file| && file[at..at + 8] == PREAMBLE
    ensures Read32(file, at + 8) == f.version && Read32(file, at + 12) == |f.body| + HEADER_SIZE
    ensures Read32(file, at + 16) == f.count && Read32(file, at + 20) == f.flags
    ensures file[..|f.base|] == f.base && file[at - |f.body|..at] == f.body
    ensures f.id3 != [] ==> file[|file| - HEADER_SIZE..|file| - HEADER_SIZE + 8] != PREAMBLE
  {
    hide HeaderFooter, Read32, HasBit;
    assert file == (f.base + f.header + f.body) + (Footer(f) + f.id3);
    assert file[at..at + HEADER_SIZE] == Footer(f);
    FooterFields(file, at, f.version, |f.body| + HEADER_SIZE, f.count, f.flags);
    if f.id3 != [] {
      assert file[|file| - HEADER_SIZE..|file| - HEADER_SIZE + 8] == f.id3[96..104];
    }
  }

  /** A rewrite cuts away exactly the other program's tag and the ID3v1 tag behind it, whether it has a header or
      not; but it overlooks one that has nothing in front of it and an ID3v1 tag behind. */
  lemma ForeignIsStrippedIff(f: Foreign)
    requires IsForeign(f)
    ensures Stripped(ForeignFile(f)) == Ok(f.base) <==> IsFound(f)
  {
    hide HeaderFooter, Read32, HasBit, ForeignFile;
    var file, at := ForeignFile(f), |f.base + f.header + f.body|;
    ForeignFields(f, file, at);
    assert at == 0 ==> f.base + f.header + f.body == [];
    if IsFound(f) {
      assert ExistingSize(file) == |file| - |f.base|;
    } else {
      assert ExistingSize(file) == 0;
    }
  }

  /** The items of another program's tag are read back, and whether it is read-only, header or not, in front of an
      ID3v1 tag or at the end. */
  lemma ForeignIsRead(f: Foreign, items: seq<Item>)
    requires IsForeign(f) && IsFound(f) && (f.version == VERSION_1 || f.version == VERSION_2)
    requires f.body == MarshalItems(items) && f.count == |items| <= 1000 && AllNulFree(items)
    ensures Read(ForeignFile(f)) == Some(Ok(Tag(f.version, items, HasBit(f.flags, 1))))
  {
    hide HeaderFooter, Read32, HasBit, ParseFrom, MarshalItems;
    var file, at := ForeignFile(f), |f.base + f.header + f.body|;
    ForeignFields(f, file, at);
    assert at == 0 ==> f.base + f.header + f.body == [];
    FitsTag(items);
    ItemsReadBack(items);
    assert ReadAtOffset(file, at) == Some(Ok(Tag(f.version, items, HasBit(f.flags, 1))));
  }

  lemma FitsTag(items: seq<Item>)
    requires |items| <= MAX_ITEMS && |MarshalItems(items)| + HEADER_SIZE < U32
    ensures Fits(items)
  {
  }

  /** A header is not taken for a footer, neither by a rewrite nor by the reader. */
  lemma HeaderIsNoFooter(base: seq<byte>, version: uint32, tagSize: uint32, count: uint32, flags: uint32)
    requires HasBit(flags, FLAG_IS_HEADER) && |base| <= ID3V1_SIZE
    ensures var file := base + HeaderFooter(version, tagSize, count, flags);
            Stripped(file) == Ok(file) && Read(file) == Some(Err)
  {
    hide HeaderFooter, Read32, HasBit;
    var file := base + HeaderFooter(version, tagSize, count, flags);
    assert file[|base|..|base| + HEADER_SIZE] == HeaderFooter(version, tagSize, count, flags);
    FooterFields(file, |base|, version, tagSize, count, flags);
    assert ExistingSize(file) == 0 && file[..|file|] == file;
  }

  /** A write fails exactly for a tag without items, or if the footer at the end of the file claims more than the
      file holds. */
  lemma WriteFailsIff(file: seq<byte>, tag: Tag)
    ensures Write(file, tag).Err? <==> tag.items == [] || ExistingSize(file) > |file|
  {
    hide ExistingSize;
  }

  /** The value size is checked before the key is read: an item whose key is longer than that leaves room for makes
      the parser slice out of range. */
  lemma LongKeyIsOutOfRange()
    ensures ParseFrom([3, 0, 0, 0, 0, 0, 0, 0, 0x41, 0x42, 0], 0, 1, []) == Panic
  {
    var data: seq<byte> := [3, 0, 0, 0, 0, 0, 0, 0, 0x41, 0x42, 0];
    assert LE32(3) == [3, 0, 0, 0];
    Read32Back(data, 0, 3);
    KeyEndIs(data, 8, 10);
  }
}
