/**
 Ogg packet reassembly: the page reader and the packet collector, proved against
 the page layout of RFC 3533 sections 5 and 6. However a logical stream's packets
 are laid into pages, the collector returns the packets themselves.
 */
module Ogg {
  import opened Bytes

  type Packet = seq<byte>

  const MAX_PACKET_SIZE := 10 * 1024 * 1024
  const HEADER_SIZE := 27
  const CAPTURE_PATTERN: seq<byte> := [0x4F, 0x67, 0x67, 0x53]  // "OggS"

  /** A page: its 27 fixed header bytes, its segment table and its body. */
  datatype Page = Page(header: seq<byte>, segs: seq<byte>, data: seq<byte>)

  function Sum(segs: seq<byte>): (n: nat) {
    if segs == [] then 0 else segs[0] + Sum(segs[1..])
  }

  lemma {:induction false} SumAppend(s: seq<byte>, t: seq<byte>)
    ensures Sum(s + t) == Sum(s) + Sum(t)
  {
    if s == [] {
      assert s + t == t;
    } else {
      assert (s + t)[1..] == s[1..] + t;
      SumAppend(s[1..], t);
    }
  }

  ghost predicate WellFormed(p: Page) {
    && |p.header| == HEADER_SIZE && p.header[..4] == CAPTURE_PATTERN
    && p.header[26] == |p.segs| && |p.data| == Sum(p.segs)
  }

  /** Header type bit 0: the page opens with the rest of a packet begun earlier. */
  predicate Continued(p: Page)
    requires |p.header| == HEADER_SIZE
  {
    p.header[5] % 2 == 1
  }

  function PageBytes(p: Page): seq<byte> {
    p.header + p.segs + p.data
  }

  // ----- reading one page -----

  datatype PageRead = PageOk(page: Page, next: nat) | PageError

  function ReadPage(file: seq<byte>, pos: nat): (r: PageRead)
    ensures r.PageOk? ==> WellFormed(r.page) && r.next == pos + |PageBytes(r.page)| <= |file|
  {
    var table := pos + HEADER_SIZE;
    if table > |file| || file[pos..pos + 4] != CAPTURE_PATTERN then PageError else
    var body := table + file[pos + 26];
    if body > |file| then PageError else
    var next := body + Sum(file[table..body]);
    if next > |file| then PageError
    else PageOk(Page(file[pos..table], file[table..body], file[body..next]), next)
  }

  /** All pages that can be read from `pos` on, up to the first that cannot. */
  function PagesOf(file: seq<byte>, pos: nat): (pages: seq<Page>)
    requires pos <= |file|
    ensures AllWellFormed(pages)
    decreases |file| - pos
  {
    match ReadPage(file, pos)
    case PageError => []
    case PageOk(p, next) => [p] + PagesOf(file, next)
  }

  ghost predicate AllWellFormed(pages: seq<Page>) {
    forall i :: 0 <= i < |pages| ==> WellFormed(pages[i])
  }

  method ReadOggPageWithHeader(file: seq<byte>, pos: nat) returns (r: PageRead)
    ensures r == ReadPage(file, pos)
  {
    if pos + HEADER_SIZE > |file| { return PageError; }
    var header := file[pos..pos + HEADER_SIZE];
    if header[..4] != CAPTURE_PATTERN { return PageError; }
    var table := pos + HEADER_SIZE;
    var body := table + header[26];
    if body > |file| { return PageError; }
    var segmentTable := file[table..body];
    var pageSize := 0;
    for i := 0 to |segmentTable|
      invariant pageSize + Sum(segmentTable[i..]) == Sum(segmentTable)
    {
      pageSize := pageSize + segmentTable[i];
    }
    if body + pageSize > |file| { return PageError; }
    r := PageOk(Page(header, segmentTable, file[body..body + pageSize]), body + pageSize);
  }

  // ----- collecting packets -----

  datatype Collector = Collector(packets: seq<Packet>, cur: Packet, skip: bool)

  /** The effect of one segment: it ends a packet exactly when it is shorter than 255 bytes. */
  function TakeSegment(c: Collector, chunk: seq<byte>): Collector {
    if c.skip then
      c.(skip := |chunk| >= 255)
    else if |c.cur| + |chunk| > MAX_PACKET_SIZE then
      Collector(c.packets, [], |chunk| >= 255)
    else if |chunk| >= 255 then
      c.(cur := c.cur + chunk)
    else
      Collector(if |c.cur + chunk| > 0 then c.packets + [c.cur + chunk] else c.packets, [], false)
  }

  function TakeSegments(c: Collector, segs: seq<byte>, data: seq<byte>, maxPackets: int): Collector
    requires |data| == Sum(segs)
    decreases |segs|
  {
    if segs == [] || |c.packets| >= maxPackets then c
    else TakeSegments(TakeSegment(c, data[..segs[0]]), segs[1..], data[segs[0]..], maxPackets)
  }

  /** A page that does not continue a packet drops whatever was being assembled. */
  function OpenPage(c: Collector, p: Page): Collector
    requires WellFormed(p)
  {
    if !Continued(p) && |c.cur| > 0 then Collector(c.packets, [], false) else c
  }

  datatype Collected = Collected(packets: seq<Packet>, failed: bool)

  /** The collector over pages: an error is reported only when they run out without a packet. */
  function Collect(pages: seq<Page>, c: Collector, maxPackets: int, n: int): Collected
    requires AllWellFormed(pages)
    decreases |pages|
  {
    if n <= 0 || |c.packets| >= maxPackets then Collected(c.packets, false)
    else if pages == [] then Collected(c.packets, |c.packets| == 0)
    else
      var p := pages[0];
      Collect(pages[1..], TakeSegments(OpenPage(c, p), p.segs, p.data, maxPackets), maxPackets, n - 1)
  }

  const START := Collector([], [], false)

  /** The loop over the segments of one page. */
  method CollectSegments(page: Page, c: Collector, maxPackets: int)
    returns (packets: seq<Packet>, cur: Packet, skipPacket: bool)
    requires |page.data| == Sum(page.segs)
    ensures Collector(packets, cur, skipPacket) == TakeSegments(c, page.segs, page.data, maxPackets)
  {
    packets, cur, skipPacket := c.packets, c.cur, c.skip;
    var offset, i := 0, 0;
    while i < |page.segs| && |packets| < maxPackets
      invariant 0 <= i <= |page.segs| && 0 <= offset <= |page.data|
      invariant |page.data[offset..]| == Sum(page.segs[i..])
      invariant TakeSegments(Collector(packets, cur, skipPacket), page.segs[i..], page.data[offset..], maxPackets)
             == TakeSegments(c, page.segs, page.data, maxPackets)
    {
      var segLen := page.segs[i];
      assert page.segs[i..][1..] == page.segs[i + 1..];
      assert page.data[offset..][segLen..] == page.data[offset + segLen..];
      assert page.data[offset..][..segLen] == page.data[offset..offset + segLen];
      if skipPacket {
        if segLen < 255 {
          skipPacket := false;
        }
      } else if |cur| + segLen > MAX_PACKET_SIZE {
        cur, skipPacket := [], segLen >= 255;
      } else {
        cur := cur + page.data[offset..offset + segLen];
        if segLen < 255 {
          if |cur| > 0 {
            packets := packets + [cur];
          }
          cur := [];
        }
      }
      offset := offset + segLen;
      i := i + 1;
    }
  }

  /** The loop over the pages. */
  method CollectOggPackets(file: seq<byte>, maxPackets: int, maxPages: int)
    returns (packets: seq<Packet>, failed: bool)
    ensures Collected(packets, failed) == Collect(PagesOf(file, 0), START, maxPackets, maxPages)
  {
    hide ReadPage, TakeSegments, PageBytes, PagesOf, Collect, AllWellFormed, Sum;
    packets, failed := [], false;
    var cur, skipPacket := [], false;
    var pageNum, pos: nat := 0, 0;
    ghost var goal := Collect(PagesOf(file, 0), START, maxPackets, maxPages);
    while pageNum < maxPages && |packets| < maxPackets
      invariant pos <= |file|
      invariant Collect(PagesOf(file, pos), Collector(packets, cur, skipPacket), maxPackets, maxPages - pageNum) == goal
    {
      var read := ReadOggPageWithHeader(file, pos);
      NextPage(file, pos, Collector(packets, cur, skipPacket), maxPackets, maxPages - pageNum);
      if read.PageError? {
        return packets, |packets| == 0;
      }
      if read.page.header[5] % 2 == 0 && |cur| > 0 {
        cur, skipPacket := [], false;
      }
      packets, cur, skipPacket :=
        CollectSegments(read.page, Collector(packets, cur, skipPacket), maxPackets);
      pos := read.next;
      pageNum := pageNum + 1;
    }
    CollectEnd(PagesOf(file, pos), Collector(packets, cur, skipPacket), maxPackets, maxPages - pageNum);
  }

  /** One page off the file is one step of the collector. */
  lemma NextPage(file: seq<byte>, pos: nat, c: Collector, maxPackets: int, n: int)
    requires pos <= |file| && n > 0 && |c.packets| < maxPackets
    ensures var r := ReadPage(file, pos);
            match r
            case PageError => Collect(PagesOf(file, pos), c, maxPackets, n) == Collected(c.packets, |c.packets| == 0)
            case PageOk(p, next) =>
              Collect(PagesOf(file, pos), c, maxPackets, n)
              == Collect(PagesOf(file, next), TakeSegments(OpenPage(c, p), p.segs, p.data, maxPackets), maxPackets,
                         n - 1)
  {
    hide ReadPage, TakeSegments, PageBytes;
    if ReadPage(file, pos).PageOk? {
      var p, rest := ReadPage(file, pos).page, PagesOf(file, ReadPage(file, pos).next);
      assert PagesOf(file, pos) == [p] + rest && ([p] + rest)[1..] == rest;
    }
  }

  lemma CollectEnd(pages: seq<Page>, c: Collector, maxPackets: int, n: int)
    requires AllWellFormed(pages) && (n <= 0 || |c.packets| >= maxPackets)
    ensures Collect(pages, c, maxPackets, n) == Collected(c.packets, false)
  {
  }

  // ----- the layout of RFC 3533 -----

  /** Lacing values of a packet of n bytes: n / 255 full segments and a shorter one. */
  function Lacing(n: nat): (segs: seq<byte>) {
    if n >= 255 then [255] + Lacing(n - 255) else [n]
  }

  function LacingAll(packets: seq<Packet>): seq<byte> {
    if packets == [] then [] else Lacing(|packets[0]|) + LacingAll(packets[1..])
  }

  function Concat(packets: seq<Packet>): seq<byte> {
    if packets == [] then [] else packets[0] + Concat(packets[1..])
  }

  function SegsOf(pages: seq<Page>): seq<byte> {
    if pages == [] then [] else pages[0].segs + SegsOf(pages[1..])
  }

  function DataOf(pages: seq<Page>): seq<byte> {
    if pages == [] then [] else pages[0].data + DataOf(pages[1..])
  }

  function FileOf(pages: seq<Page>): seq<byte> {
    if pages == [] then [] else PageBytes(pages[0]) + FileOf(pages[1..])
  }

  /** Whether a packet is still open after these segments. */
  predicate MidPacket(segs: seq<byte>) {
    segs != [] && segs[|segs| - 1] == 255
  }

  /** Every page is well formed and carries the continuation flag exactly when a packet
      is open; `before` are the segments of the pages in front of these. */
  ghost predicate Flagged(pages: seq<Page>, before: seq<byte>) {
    pages != [] ==>
      && WellFormed(pages[0])
      && Continued(pages[0]) == MidPacket(before)
      && Flagged(pages[1..], before + pages[0].segs)
  }

  /** The pages lay out the packets in order, possibly stopping anywhere in the last one. */
  ghost predicate Lays(pages: seq<Page>, packets: seq<Packet>) {
    && Flagged(pages, [])
    && SegsOf(pages) <= LacingAll(packets)
    && DataOf(pages) <= Concat(packets)
  }

  /** How many packets end within these segments. */
  function Endings(segs: seq<byte>): nat {
    if segs == [] then 0 else (if segs[0] < 255 then 1 else 0) + Endings(segs[1..])
  }

  /** The packets the collector is to return: neither empty nor above the size limit. */
  function Kept(packets: seq<Packet>): (kept: seq<Packet>)
    ensures |kept| <= |packets|
  {
    if packets == [] then []
    else
      var p := packets[|packets| - 1];
      Kept(packets[..|packets| - 1]) + if 0 < |p| <= MAX_PACKET_SIZE then [p] else []
  }

  function Take<T>(s: seq<T>, n: int): seq<T> {
    if n <= 0 then [] else if n < |s| then s[..n] else s
  }

  // ----- reference decoding: completed packets, and the bytes of the open one -----

  datatype Decoded = Decoded(done: seq<Packet>, pending: Packet)

  function DecodeSegment(d: Decoded, chunk: seq<byte>): Decoded {
    if |chunk| >= 255 then d.(pending := d.pending + chunk)
    else Decoded(d.done + [d.pending + chunk], [])
  }

  function Decode(d: Decoded, segs: seq<byte>, data: seq<byte>): (r: Decoded)
    requires |data| == Sum(segs)
    decreases |segs|
  {
    if segs == [] then d
    else Decode(DecodeSegment(d, data[..segs[0]]), segs[1..], data[segs[0]..])
  }

  /** The collector holds what the reference holds, except that an oversized open packet is skipped. */
  ghost predicate Agrees(c: Collector, d: Decoded) {
    && c.packets == Kept(d.done)
    && if c.skip then c.cur == [] && |d.pending| > MAX_PACKET_SIZE
       else c.cur == d.pending && |d.pending| <= MAX_PACKET_SIZE
  }

  lemma SegmentAgrees(c: Collector, d: Decoded, chunk: seq<byte>)
    requires Agrees(c, d)
    ensures Agrees(TakeSegment(c, chunk), DecodeSegment(d, chunk))
  {
    var whole := d.pending + chunk;
    assert (d.done + [whole])[..|d.done|] == d.done;
  }

  lemma {:induction false} KeptPrefix(done: seq<Packet>, more: seq<Packet>)
    ensures Kept(done) <= Kept(done + more)
  {
    if more == [] {
      assert done + more == done;
    } else {
      var n := |more| - 1;
      assert (done + more)[..|done| + n] == done + more[..n];
      KeptPrefix(done, more[..n]);
    }
  }

  lemma {:induction false} DecodeGrows(d: Decoded, segs: seq<byte>, data: seq<byte>)
    requires |data| == Sum(segs)
    ensures d.done <= Decode(d, segs, data).done
    decreases |segs|
  {
    if segs != [] {
      DecodeGrows(DecodeSegment(d, data[..segs[0]]), segs[1..], data[segs[0]..]);
    }
  }

  lemma KeptOfPrefix(done: seq<Packet>, all: seq<Packet>)
    requires done <= all
    ensures Kept(done) <= Kept(all)
  {
    KeptPrefix(done, all[|done|..]);
    assert done + all[|done|..] == all;
  }

  /** A page's segments: either the limit is reached and the first maxPackets kept packets
      are out, or the collector still agrees with the reference. */
  lemma {:induction false} SegmentsAgree(c: Collector, d: Decoded, segs: seq<byte>, data: seq<byte>, maxPackets: nat)
    requires |data| == Sum(segs) && Agrees(c, d) && |c.packets| <= maxPackets
    ensures var c', d' := TakeSegments(c, segs, data, maxPackets), Decode(d, segs, data);
            if |c'.packets| < maxPackets then Agrees(c', d')
            else |c'.packets| == maxPackets && c'.packets <= Kept(d'.done)
    decreases |segs|
  {
    if segs == [] {
    } else if |c.packets| >= maxPackets {
      DecodeGrows(d, segs, data);
      KeptOfPrefix(d.done, Decode(d, segs, data).done);
    } else {
      SegmentAgrees(c, d, data[..segs[0]]);
      SegmentsAgree(TakeSegment(c, data[..segs[0]]), DecodeSegment(d, data[..segs[0]]),
                    segs[1..], data[segs[0]..], maxPackets);
    }
  }

  lemma {:induction false} DecodeAppend(d: Decoded, s: seq<byte>, x: seq<byte>, t: seq<byte>, y: seq<byte>)
    requires |x| == Sum(s) && |y| == Sum(t)
    ensures |x + y| == Sum(s + t)
    ensures Decode(d, s + t, x + y) == Decode(Decode(d, s, x), t, y)
    decreases |s|
  {
    SumAppend(s, t);
    if s == [] {
      assert s + t == t && x + y == y;
    } else {
      assert (s + t)[1..] == s[1..] + t;
      assert (x + y)[..s[0]] == x[..s[0]] && (x + y)[s[0]..] == x[s[0]..] + y;
      DecodeAppend(DecodeSegment(d, x[..s[0]]), s[1..], x[s[0]..], t, y);
    }
  }

  /** When no packet is open the reference holds no pending bytes. */
  lemma {:induction false} NothingPending(d: Decoded, segs: seq<byte>, data: seq<byte>)
    requires |data| == Sum(segs) && !MidPacket(segs)
    ensures segs == [] || Decode(d, segs, data).pending == []
    decreases |segs|
  {
    if |segs| > 1 {
      NothingPending(DecodeSegment(d, data[..segs[0]]), segs[1..], data[segs[0]..]);
    } else if |segs| == 1 {
      assert Sum(segs) == segs[0] + Sum([]);
    }
  }

  /** What the segments complete when the first packet already has `pending` bytes in front. */
  ghost function Completed(d: Decoded, packets: seq<Packet>, k: nat): seq<Packet>
    requires k <= |packets|
  {
    if k == 0 then d.done else d.done + [d.pending + packets[0]] + packets[1..k]
  }

  lemma ConsPacket(p: Packet, packets: seq<Packet>)
    ensures LacingAll([p] + packets) == Lacing(|p|) + LacingAll(packets)
    ensures Concat([p] + packets) == p + Concat(packets)
  {
    assert ([p] + packets)[1..] == packets;
  }

  lemma FullSegmentLacing(packets: seq<Packet>, rest: seq<Packet>)
    requires packets != [] && |packets[0]| >= 255 && rest == [packets[0][255..]] + packets[1..]
    ensures LacingAll(packets) == [255] + LacingAll(rest)
    ensures Concat(packets) == packets[0][..255] + Concat(rest)
  {
    var p := packets[0];
    ConsPacket(p[255..], packets[1..]);
    var laced, bytes := LacingAll(packets[1..]), Concat(packets[1..]);
    assert [255] + Lacing(|p| - 255) + laced == [255] + (Lacing(|p| - 255) + laced);
    assert p[..255] + (p[255..] + bytes) == p + bytes;
  }

  lemma FullSegment(packets: seq<Packet>, segs: seq<byte>, data: seq<byte>, rest: seq<Packet>)
    requires segs != [] && packets != [] && |packets[0]| >= 255 && rest == [packets[0][255..]] + packets[1..]
    requires |data| == Sum(segs) && segs <= LacingAll(packets) && data <= Concat(packets)
    ensures segs[0] == 255 && data[..255] == packets[0][..255]
    ensures segs[1..] <= LacingAll(rest) && data[255..] <= Concat(rest)
  {
    FullSegmentLacing(packets, rest);
    var laced, bytes := LacingAll(rest), Concat(rest);
    CutPrefix(segs, [255], laced);
    CutPrefix(data, packets[0][..255], bytes);
  }

  lemma ShortSegment(packets: seq<Packet>, segs: seq<byte>, data: seq<byte>)
    requires segs != [] && packets != [] && |packets[0]| < 255
    requires |data| == Sum(segs) && segs <= LacingAll(packets) && data <= Concat(packets)
    ensures segs[0] == |packets[0]| && data[..segs[0]] == packets[0]
    ensures segs[1..] <= LacingAll(packets[1..]) && data[segs[0]..] <= Concat(packets[1..])
  {
    CutPrefix(segs, [|packets[0]|], LacingAll(packets[1..]));
    CutPrefix(data, packets[0], Concat(packets[1..]));
  }

  lemma FromSecond(packets: seq<Packet>, k: nat)
    requires 1 < k <= |packets|
    ensures [packets[1]] + packets[1..][1..k - 1] == packets[1..k]
  {
  }

  /** Decoding undoes the lacing: it completes exactly the packets whose last segment is there. */
  lemma {:induction false} DecodeLacing(d: Decoded, packets: seq<Packet>, segs: seq<byte>, data: seq<byte>)
    requires |data| == Sum(segs) && segs <= LacingAll(packets) && data <= Concat(packets)
    ensures Endings(segs) <= |packets|
    ensures Decode(d, segs, data).done == Completed(d, packets, Endings(segs))
    decreases |segs|
  {
    if segs != [] {
      var p, k := packets[0], Endings(segs);
      if |p| >= 255 {
        var rest := [p[255..]] + packets[1..];
        FullSegment(packets, segs, data, rest);
        DecodeLacing(DecodeSegment(d, p[..255]), rest, segs[1..], data[255..]);
        assert d.pending + p[..255] + p[255..] == d.pending + p by {
          assert p[..255] + p[255..] == p;
        }
        assert k > 0 ==> rest[1..k] == packets[1..k];
      } else {
        ShortSegment(packets, segs, data);
        DecodeLacing(DecodeSegment(d, p), packets[1..], segs[1..], data[|p|..]);
        if k > 1 {
          assert [] + packets[1] == packets[1];
          FromSecond(packets, k);
        }
      }
    }
  }

  // ----- the collector over a whole stream -----

  lemma ReadPageBytes(file: seq<byte>, pos: nat, p: Page)
    requires WellFormed(p) && pos + |PageBytes(p)| <= |file|
    requires file[pos..pos + |PageBytes(p)|] == PageBytes(p)
    ensures ReadPage(file, pos) == PageOk(p, pos + |PageBytes(p)|)
  {
    ThreeFields(file, pos, p.header, p.segs, p.data);
  }

  /** What the page reader accepts: exactly a well-formed page that stands at this position, whole. */
  lemma PageReadIff(file: seq<byte>, pos: nat, p: Page, next: nat)
    ensures ReadPage(file, pos) == PageOk(p, next)
       <==> WellFormed(p) && next == pos + |PageBytes(p)| <= |file| && file[pos..next] == PageBytes(p)
  {
    if ReadPage(file, pos) == PageOk(p, next) {
      var table := pos + HEADER_SIZE;
      var body := table + |p.segs|;
      assert file[pos..next] == file[pos..table] + file[table..body] + file[body..next];
    }
    if WellFormed(p) && next == pos + |PageBytes(p)| <= |file| && file[pos..next] == PageBytes(p) {
      ReadPageBytes(file, pos, p);
    }
  }

  lemma NoPageAtEnd(file: seq<byte>)
    ensures ReadPage(file, |file|) == PageError
  {
  }

  /** Reading back what pages were written as gives the pages. */
  lemma {:induction false} PagesReadBack(file: seq<byte>, pos: nat, pages: seq<Page>)
    requires AllWellFormed(pages) && pos <= |file| && file[pos..] == FileOf(pages)
    ensures PagesOf(file, pos) == pages
    decreases |pages|
  {
    hide ReadPage, PageBytes, WellFormed;
    if pages == [] {
      NoPageAtEnd(file);
    } else {
      assert WellFormed(pages[0]);
      SplitTail(file, pos, PageBytes(pages[0]), FileOf(pages[1..]));
      ReadPageBytes(file, pos, pages[0]);
      PagesReadBack(file, pos + |PageBytes(pages[0])|, pages[1..]);
    }
  }

  lemma {:induction false} FlaggedWellFormed(pages: seq<Page>, before: seq<byte>)
    requires Flagged(pages, before)
    ensures AllWellFormed(pages)
    decreases |pages|
  {
    if pages != [] {
      FlaggedWellFormed(pages[1..], before + pages[0].segs);
    }
  }

  /** What the reference decoder makes of everything read so far. */
  ghost function Stream(segs: seq<byte>, data: seq<byte>): Decoded
    requires |data| == Sum(segs)
  {
    Decode(Decoded([], []), segs, data)
  }

  lemma PageStep(seen: seq<byte>, seenData: seq<byte>, p: Page, c: Collector, maxPackets: nat)
    requires WellFormed(p) && Continued(p) == MidPacket(seen) && |seenData| == Sum(seen)
    requires |c.packets| < maxPackets && Agrees(c, Stream(seen, seenData))
    ensures OpenPage(c, p) == c
    ensures |seenData + p.data| == Sum(seen + p.segs)
    ensures var c', d' := TakeSegments(c, p.segs, p.data, maxPackets), Stream(seen + p.segs, seenData + p.data);
            if |c'.packets| < maxPackets then Agrees(c', d')
            else |c'.packets| == maxPackets && c'.packets <= Kept(d'.done)
  {
    if !MidPacket(seen) {
      NothingPending(Decoded([], []), seen, seenData);
    }
    SegmentsAgree(c, Stream(seen, seenData), p.segs, p.data, maxPackets);
    DecodeAppend(Decoded([], []), seen, seenData, p.segs, p.data);
  }

  function Least(n: nat, m: nat): nat {
    if n < m then n else m
  }

  /** What is to come out of a stream prefix; `short` when the file ended before maxPages. */
  ghost function Outcome(segs: seq<byte>, data: seq<byte>, maxPackets: nat, short: bool): Collected
    requires |data| == Sum(segs)
  {
    var packets := Take(Kept(Stream(segs, data).done), maxPackets);
    Collected(packets, packets == [] && short)
  }

  /** What is to come out when these pages follow what was seen and at most n are read. */
  ghost function Expected(seen: seq<byte>, seenData: seq<byte>, pages: seq<Page>, maxPackets: nat, n: nat): Collected
    requires |seenData| == Sum(seen) && AllWellFormed(pages)
    decreases |pages|
  {
    if n == 0 || pages == [] then
      Outcome(seen, seenData, maxPackets, n > 0)
    else
      SumAppend(seen, pages[0].segs);
      Expected(seen + pages[0].segs, seenData + pages[0].data, pages[1..], maxPackets, n - 1)
  }

  lemma {:induction false} ExpectedAtLimit(seen: seq<byte>, seenData: seq<byte>, pages: seq<Page>,
                                           packets: seq<Packet>, n: nat)
    requires |seenData| == Sum(seen) && AllWellFormed(pages)
    requires packets != [] && packets <= Kept(Stream(seen, seenData).done)
    ensures Expected(seen, seenData, pages, |packets|, n) == Collected(packets, false)
    decreases |pages|
  {
    if n > 0 && pages != [] {
      var p, d := pages[0], Stream(seen, seenData);
      DecodeAppend(Decoded([], []), seen, seenData, p.segs, p.data);
      DecodeGrows(d, p.segs, p.data);
      KeptOfPrefix(d.done, Decode(d, p.segs, p.data).done);
      ExpectedAtLimit(seen + p.segs, seenData + p.data, pages[1..], packets, n - 1);
    }
  }

  lemma NothingLeft(seen: seq<byte>, seenData: seq<byte>, c: Collector, maxPackets: nat, short: bool)
    requires |seenData| == Sum(seen) && |c.packets| < maxPackets && Agrees(c, Stream(seen, seenData))
    ensures Outcome(seen, seenData, maxPackets, short) == Collected(c.packets, c.packets == [] && short)
  {
    hide Stream, Kept;
  }

  /** Invariant of the page loop: `seen` are the segments read so far, `seenData` their bytes. */
  lemma {:induction false} CollectPages(seen: seq<byte>, seenData: seq<byte>, pages: seq<Page>, c: Collector,
                                        maxPackets: nat, n: nat)
    requires |seenData| == Sum(seen) && Flagged(pages, seen) && AllWellFormed(pages)
    requires |c.packets| < maxPackets && Agrees(c, Stream(seen, seenData))
    ensures Collect(pages, c, maxPackets, n) == Expected(seen, seenData, pages, maxPackets, n)
    decreases |pages|
  {
    hide Agrees, TakeSegments, Stream, Outcome, Sum, Continued;
    if n == 0 || pages == [] {
      NothingLeft(seen, seenData, c, maxPackets, n > 0);
    } else {
      var p := pages[0];
      PageStep(seen, seenData, p, c, maxPackets);
      var c' := TakeSegments(c, p.segs, p.data, maxPackets);
      if |c'.packets| < maxPackets {
        CollectPages(seen + p.segs, seenData + p.data, pages[1..], c', maxPackets, n - 1);
      } else {
        ExpectedAtLimit(seen + p.segs, seenData + p.data, pages[1..], c'.packets, n - 1);
      }
    }
  }

  lemma PagesSplit(seen: seq<byte>, seenData: seq<byte>, pages: seq<Page>, m: nat)
    requires 0 < m <= |pages|
    ensures seen + SegsOf(pages[..m]) == seen + pages[0].segs + SegsOf(pages[1..][..m - 1])
    ensures seenData + DataOf(pages[..m]) == seenData + pages[0].data + DataOf(pages[1..][..m - 1])
  {
    assert pages[..m][1..] == pages[1..][..m - 1];
  }

  lemma {:induction false} ExpectedIsOutcome(seen: seq<byte>, seenData: seq<byte>, pages: seq<Page>,
                                             maxPackets: nat, n: nat)
    requires |seenData| == Sum(seen) && AllWellFormed(pages)
    ensures var first := pages[..Least(n, |pages|)];
            && |seenData + DataOf(first)| == Sum(seen + SegsOf(first))
            && Expected(seen, seenData, pages, maxPackets, n)
               == Outcome(seen + SegsOf(first), seenData + DataOf(first), maxPackets, |pages| < n)
    decreases |pages|
  {
    hide Stream, Outcome, Sum;
    var m := Least(n, |pages|);
    if m == 0 {
      assert pages[..0] == [] && seen + [] == seen && seenData + [] == seenData;
    } else {
      SumAppend(seen, pages[0].segs);
      ExpectedIsOutcome(seen + pages[0].segs, seenData + pages[0].data, pages[1..], maxPackets, n - 1);
      PagesSplit(seen, seenData, pages, m);
    }
  }

  lemma {:induction false} FirstPages(pages: seq<Page>, m: nat)
    requires m <= |pages|
    ensures SegsOf(pages[..m]) <= SegsOf(pages) && DataOf(pages[..m]) <= DataOf(pages)
  {
    if m > 0 {
      FirstPages(pages[1..], m - 1);
      assert pages[..m][1..] == pages[1..][..m - 1];
    }
  }

  /** The packets that end within the first n pages are the ones the reference decoder completes. */
  lemma LaidPacketsDecode(pages: seq<Page>, packets: seq<Packet>, n: nat)
    requires Lays(pages, packets) && n <= |pages|
    requires |DataOf(pages[..n])| == Sum(SegsOf(pages[..n]))
    ensures Endings(SegsOf(pages[..n])) <= |packets|
    ensures Stream(SegsOf(pages[..n]), DataOf(pages[..n])).done == packets[..Endings(SegsOf(pages[..n]))]
  {
    FirstPages(pages, n);
    DecodeLacing(Decoded([], []), packets, SegsOf(pages[..n]), DataOf(pages[..n]));
    var k := Endings(SegsOf(pages[..n]));
    if k > 0 {
      assert [] + packets[0] == packets[0];
      assert [] + [packets[0]] + packets[1..k] == packets[..k];
    }
  }

  /** However the packets are laid into pages, the result is, in order, the first maxPackets
      of those packets that end within the first maxPages pages and are neither empty nor
      above the limit. An error means the file ended early without a single one. */
  lemma CollectsLaidPackets(pages: seq<Page>, packets: seq<Packet>, maxPackets: nat, maxPages: nat)
    requires Lays(pages, packets)
    ensures var k := Endings(SegsOf(pages[..Least(maxPages, |pages|)]));
            && k <= |packets|
            && var expected := Take(Kept(packets[..k]), maxPackets);
               Collect(PagesOf(FileOf(pages), 0), START, maxPackets, maxPages)
               == Collected(expected, expected == [] && |pages| < maxPages && 0 < maxPackets)
  {
    var first := pages[..Least(maxPages, |pages|)];
    FlaggedWellFormed(pages, []);
    ExpectedIsOutcome([], [], pages, maxPackets, maxPages);
    assert [] + SegsOf(first) == SegsOf(first) && [] + DataOf(first) == DataOf(first);
    LaidPacketsDecode(pages, packets, |first|);
    PagesReadBack(FileOf(pages), 0, pages);
    if maxPackets > 0 {
      CollectPages([], [], pages, START, maxPackets, maxPages);
    }
  }

  // ----- lost pages -----

  /** The collector with other packets in front of its own. */
  function Behind(base: seq<Packet>, c: Collector): Collector {
    c.(packets := base + c.packets)
  }

  lemma {:induction false} SegmentsBehind(base: seq<Packet>, c: Collector, segs: seq<byte>, data: seq<byte>, max: int)
    requires |data| == Sum(segs)
    ensures TakeSegments(Behind(base, c), segs, data, |base| + max) == Behind(base, TakeSegments(c, segs, data, max))
    decreases |segs|
  {
    if segs != [] && |c.packets| < max {
      var chunk := data[..segs[0]];
      assert TakeSegment(Behind(base, c), chunk) == Behind(base, TakeSegment(c, chunk)) by {
        assert base + c.packets + [c.cur + chunk] == base + (c.packets + [c.cur + chunk]);
      }
      SegmentsBehind(base, TakeSegment(c, chunk), segs[1..], data[segs[0]..], max);
    }
  }

  /** Packets already collected stay in front, and count against the limit. */
  lemma {:induction false} CollectBehind(base: seq<Packet>, pages: seq<Page>, c: Collector, max: int, n: int)
    requires AllWellFormed(pages)
    ensures Collect(pages, Behind(base, c), |base| + max, n).packets == base + Collect(pages, c, max, n).packets
    decreases |pages|
  {
    hide TakeSegments;
    if n > 0 && |c.packets| < max && pages != [] {
      var p := pages[0];
      SegmentsBehind(base, OpenPage(c, p), p.segs, p.data, max);
      assert OpenPage(Behind(base, c), p) == Behind(base, OpenPage(c, p));
      CollectBehind(base, pages[1..], TakeSegments(OpenPage(c, p), p.segs, p.data, max), max, n - 1);
    }
  }

  /** The collector behind some pages, whatever they hold. */
  function After(c: Collector, pages: seq<Page>, max: int): Collector
    requires AllWellFormed(pages)
    decreases |pages|
  {
    if pages == [] || |c.packets| >= max then c
    else After(TakeSegments(OpenPage(c, pages[0]), pages[0].segs, pages[0].data, max), pages[1..], max)
  }

  lemma {:induction false} CollectAfter(c: Collector, lost: seq<Page>, pages: seq<Page>, max: int, n: nat)
    requires AllWellFormed(lost) && AllWellFormed(pages) && AllWellFormed(lost + pages)
    ensures Collect(lost + pages, c, max, |lost| + n).packets == Collect(pages, After(c, lost, max), max, n).packets
    decreases |lost|
  {
    hide TakeSegments;
    if lost == [] {
      assert lost + pages == pages;
    } else if |c.packets| < max {
      assert (lost + pages)[1..] == lost[1..] + pages;
      CollectAfter(TakeSegments(OpenPage(c, lost[0]), lost[0].segs, lost[0].data, max), lost[1..], pages, max, n);
    }
  }

  /** A page that continues nothing starts from a clean state exactly if no oversized packet was being skipped:
      an open packet is dropped, but the skipping goes on. */
  lemma FreshPageIff(c: Collector, p: Page)
    requires WellFormed(p) && !Continued(p) && (c.skip ==> c.cur == [])
    ensures OpenPage(c, p) == Collector(c.packets, [], false) <==> !c.skip
  {
  }

  lemma StartsFresh(c: Collector, pages: seq<Page>, max: int, n: int)
    requires AllWellFormed(pages) && pages != [] && !Continued(pages[0]) && !c.skip
    ensures Collect(pages, c, max, n) == Collect(pages, Collector(c.packets, [], false), max, n)
  {
  }

  /** From any state that skips nothing, a stream laid out from its first page on adds its packets. */
  lemma CollectsFrom(c: Collector, pages: seq<Page>, packets: seq<Packet>, max: nat, n: nat)
    requires Lays(pages, packets) && pages != [] && !c.skip && |c.packets| <= max && AllWellFormed(pages)
    ensures var k := Endings(SegsOf(pages[..Least(n, |pages|)]));
            k <= |packets|
            && Collect(pages, c, max, n).packets == c.packets + Take(Kept(packets[..k]), max - |c.packets|)
  {
    hide Collect, Lays, Kept, Continued, FileOf, PagesOf, Endings, SegsOf, AllWellFormed;
    LaysFresh(pages, packets);
    StartsFresh(c, pages, max, n);
    assert Behind(c.packets, START) == Collector(c.packets, [], false);
    CollectBehind(c.packets, pages, START, max - |c.packets|, n);
    CollectsLaidPackets(pages, packets, max - |c.packets|, n);
    LaidReadBack(pages);
  }

  lemma LaidReadBack(pages: seq<Page>)
    requires AllWellFormed(pages)
    ensures PagesOf(FileOf(pages), 0) == pages
  {
    hide PagesOf;
    PagesReadBack(FileOf(pages), 0, pages);
  }

  /** Resynchronisation: behind any pages whatsoever, as after a loss, a stream that is laid out from its first page
      on gives its packets, and none is joined with what the pages in front left open; unless an oversized
      packet was being skipped there. */
  lemma ResumesAfterLoss(lost: seq<Page>, pages: seq<Page>, packets: seq<Packet>, max: nat, n: nat)
    requires AllWellFormed(lost) && Lays(pages, packets) && pages != []
    requires var c := After(START, lost, max); !c.skip && |c.packets| <= max
    ensures var c, k := After(START, lost, max), Endings(SegsOf(pages[..Least(n, |pages|)]));
            && AllWellFormed(lost + pages) && k <= |packets|
            && Collect(lost + pages, START, max, |lost| + n).packets
               == c.packets + Take(Kept(packets[..k]), max - |c.packets|)
  {
    hide After, Collect, Lays, Kept, Continued, FileOf, PagesOf, Endings, SegsOf;
    var c := After(START, lost, max);
    LaysFresh(pages, packets);
    CollectAfter(START, lost, pages, max, n);
    CollectsFrom(c, pages, packets, max, n);
  }

  lemma LaysFresh(pages: seq<Page>, packets: seq<Packet>)
    requires Lays(pages, packets) && pages != []
    ensures AllWellFormed(pages) && !Continued(pages[0])
  {
    FlaggedWellFormed(pages, []);
  }

  /** The packets that are kept: those with at least one byte and at most 10 MiB. */
  lemma {:induction false} KeptMembers(packets: seq<Packet>)
    ensures forall p: Packet :: p in Kept(packets) <==> p in packets && 0 < |p| <= 10485760
    decreases |packets|
  {
    if packets != [] {
      var n := |packets| - 1;
      KeptMembers(packets[..n]);
      assert packets == packets[..n] + [packets[n]];
    }
  }
}
