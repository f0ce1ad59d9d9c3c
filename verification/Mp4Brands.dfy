/**
 Rewriting QuickTime brands in place: the major brand of the ftyp box becomes mp42, and every
 compatible brand "qt  " becomes isom.
 */
module Mp4Brands {
  import opened Bytes
  import opened Mp4Boxes

  const FTYP: FourCc := 0x66747970  // "ftyp"
  const MP42: FourCc := 0x6D703432  // "mp42"
  const ISOM: FourCc := 0x69736F6D  // "isom"
  const QT: FourCc := 0x71742020    // "qt  "

  function Brand(typ: FourCc): (s: seq<byte>)
    ensures |s| == 4
  {
    ToBE(typ, 4)
  }

  function Major(data: seq<byte>, p: nat): (r: seq<byte>)
    ensures |r| == |data|
  {
    if p + 4 <= |data| && Read32(data, p) != MP42 then Overwrite(data, p, Brand(MP42)) else data
  }

  function Compatible(data: seq<byte>, p: nat, end: nat): (r: seq<byte>)
    requires end <= |data|
    ensures |r| == |data|
    decreases end - p
  {
    if p + 4 > end then data
    else Compatible(if Read32(data, p) == QT then Overwrite(data, p, Brand(ISOM)) else data, p + 4, end)
  }

  function Normalized(data: seq<byte>): (r: seq<byte>)
    ensures |r| == |data|
  {
    match FindChild(data, 0, |data|, FTYP)
    case None => data
    case Some(ftyp) => Compatible(Major(data, ftyp.Body()), ftyp.Body() + 8, ftyp.End())
  }

  /** Overwrites brands in place and says whether any byte changed. */
  method NormalizeQuickTimeBrands(buf: array<byte>) returns (changed: bool)
    modifies buf
    ensures buf[..] == Normalized(old(buf[..]))
    ensures changed <==> buf[..] != old(buf[..])
  {
    hide Brand, FindChild;
    BrandsRead();
    changed := false;
    var ftyp := FindChildMp4(buf[..], 0, buf.Length, FTYP);
    if ftyp.None? { return; }
    var b := ftyp.value;
    if b.Body() + 4 <= buf.Length && Read32(buf[..], b.Body()) != MP42 {
      Changes(buf[..], b.Body(), MP42);
      Store(buf, b.Body(), Brand(MP42));
      changed := true;
    }
    var compatible := ReplaceCompatible(buf, b.Body() + 8, b.End(), b.Body());
    changed := changed || compatible;
  }

  /** The loop over the compatible brands; what is at `major` in front of them stays. */
  method ReplaceCompatible(buf: array<byte>, from: nat, end: nat, ghost major: nat) returns (changed: bool)
    requires end <= buf.Length && major + 4 <= from
    modifies buf
    ensures buf[..] == Compatible(old(buf[..]), from, end)
    ensures changed <==> buf[..] != old(buf[..])
    ensures major + 4 <= buf.Length ==> buf[..][major..major + 4] == old(buf[..])[major..major + 4]
  {
    hide Brand, FromBE;
    changed := false;
    var p := from;
    while p + 4 <= end
      invariant from <= p
      invariant Compatible(buf[..], p, end) == Compatible(old(buf[..]), from, end)
      invariant forall k :: p <= k < buf.Length ==> buf[k] == old(buf[k])
      invariant forall k :: 0 <= k < from && k < buf.Length ==> buf[k] == old(buf[k])
      invariant changed <==> buf[..] != old(buf[..])
      decreases end - p
    {
      SameWord(buf[..], old(buf[..]), p);
      if Read32(buf[..], p) == QT {
        Changes(buf[..], p, ISOM);
        Store(buf, p, Brand(ISOM));
        assert buf[..][p..p + 4] != old(buf[..])[p..p + 4];
        changed := true;
      }
      p := p + 4;
    }
  }

  lemma SameWord(data: seq<byte>, before: seq<byte>, p: nat)
    requires |data| == |before| && p + 4 <= |data| && forall k :: p <= k < |data| ==> data[k] == before[k]
    ensures data[p..p + 4] == before[p..p + 4]
  {
  }

  lemma BrandsRead()
    ensures FromBE(Brand(MP42)) == MP42 && FromBE(Brand(ISOM)) == ISOM
  {
    Pow256Values();
    FromToBE(MP42, 4);
    FromToBE(ISOM, 4);
  }

  /** Storing another brand changes the bytes. */
  lemma Changes(data: seq<byte>, p: nat, typ: FourCc)
    requires p + 4 <= |data| && Read32(data, p) != typ && (typ == MP42 || typ == ISOM)
    ensures data[p..p + 4] != Brand(typ)
  {
    hide Brand;
    BrandsRead();
  }

  // ----- what the result is -----

  lemma {:induction false} CompatibleOutside(data: seq<byte>, p: nat, end: nat, k: nat)
    requires end <= |data| && k < |data| && (k < p || k >= end)
    ensures Compatible(data, p, end)[k] == data[k]
    decreases end - p
  {
    hide Brand;
    if p + 4 <= end {
      CompatibleOutside(if Read32(data, p) == QT then Overwrite(data, p, Brand(ISOM)) else data, p + 4, end, k);
    }
  }

  /** Four bytes the loop does not reach. */
  lemma CompatibleKeeps(data: seq<byte>, p: nat, end: nat, q: nat, n: nat)
    requires end <= |data| && q + n <= |data| && (q + n <= p || q >= end)
    ensures Compatible(data, p, end)[q..q + n] == data[q..q + n]
  {
    forall k | q <= k < q + n ensures Compatible(data, p, end)[k] == data[k] {
      CompatibleOutside(data, p, end, k);
    }
  }

  /** No compatible brand is "qt  " any more, and the others are as they were. */
  lemma {:induction false} CompatibleDone(data: seq<byte>, p: nat, end: nat, i: nat)
    requires end <= |data| && p + 4 * i + 4 <= end
    ensures var q := p + 4 * i;
            Read32(Compatible(data, p, end), q) == if Read32(data, q) == QT then ISOM else Read32(data, q)
    decreases end - p
  {
    hide Brand, FromBE;
    var next := if Read32(data, p) == QT then Overwrite(data, p, Brand(ISOM)) else data;
    BrandsRead();
    if i == 0 {
      CompatibleKeeps(next, p + 4, end, p, 4);
    } else {
      assert next[p + 4 * i..p + 4 * i + 4] == data[p + 4 * i..p + 4 * i + 4];
      CompatibleDone(next, p + 4, end, i - 1);
    }
  }

  lemma {:induction false} NothingLeft(data: seq<byte>, p: nat, end: nat)
    requires end <= |data| && forall i: nat :: p + 4 * i + 4 <= end ==> Read32(data, p + 4 * i) != QT
    ensures Compatible(data, p, end) == data
    decreases end - p
  {
    if p + 4 <= end {
      assert Read32(data, p + 4 * 0) != QT;
      forall i: nat | p + 4 + 4 * i + 4 <= end ensures Read32(data, p + 4 + 4 * i) != QT {
        assert Read32(data, p + 4 * (i + 1)) != QT;
      }
      NothingLeft(data, p + 4, end);
    }
  }

  /** The search for a box reads nothing behind that box's header. */
  lemma {:induction false} FoundAgain(data: seq<byte>, out: seq<byte>, pos: nat, end: nat, typ: FourCc)
    requires |out| == |data| && FindChild(data, pos, end, typ).Some?
    requires var body := FindChild(data, pos, end, typ).value.Body(); body <= |data| && out[..body] == data[..body]
    ensures FindChild(out, pos, end, typ) == FindChild(data, pos, end, typ)
    decreases end - pos
  {
    var b := ReadBox(data, pos).value;
    var found := FindChild(data, pos, end, typ).value;
    SameHeader(data, out, pos, found.Body());
    if b.typ != typ {
      FoundAgain(data, out, b.End(), end, typ);
    }
  }

  lemma SameHeader(data: seq<byte>, out: seq<byte>, pos: nat, n: nat)
    requires |out| == |data| && n <= |data| && out[..n] == data[..n]
    requires ReadBox(data, pos).Some? && ReadBox(data, pos).value.Body() <= n
    ensures ReadBox(out, pos) == ReadBox(data, pos)
  {
    assert out[pos..pos + 4] == out[..n][pos..pos + 4] == data[..n][pos..pos + 4] == data[pos..pos + 4];
    assert out[pos + 4..pos + 8] == out[..n][pos + 4..pos + 8] == data[..n][pos + 4..pos + 8] == data[pos + 4..pos + 8];
    if Read32(data, pos) == 1 {
      assert out[pos + 8..pos + 16] == out[..n][pos + 8..pos + 16];
      assert data[pos + 8..pos + 16] == data[..n][pos + 8..pos + 16];
    }
  }

  lemma FtypStays(data: seq<byte>)
    requires FindChild(data, 0, |data|, FTYP).Some?
    ensures var b, out := FindChild(data, 0, |data|, FTYP).value, Normalized(data);
            && FindChild(out, 0, |out|, FTYP) == Some(b)
            && (b.Body() + 4 <= |data| ==> Read32(out, b.Body()) == MP42)
  {
    hide FindChild, Brand, Compatible;
    var b := FindChild(data, 0, |data|, FTYP).value;
    var p := b.Body();
    var m := Major(data, p);
    var out := Normalized(data);
    BrandsRead();
    CompatibleKeeps(m, p + 8, b.End(), 0, p);
    assert out[..p] == out[0..p] && m[..p] == m[0..p] && m[..p] == data[..p];
    FoundAgain(data, out, 0, |data|, FTYP);
    if p + 4 <= |data| {
      CompatibleKeeps(m, p + 8, b.End(), p, 4);
    }
  }

  /** After the rewrite the ftyp box is where it was, its major brand is mp42 if it has one, no compatible
      brand is "qt  ", and rewriting again changes nothing. */
  lemma BrandsNormalized(data: seq<byte>)
    requires FindChild(data, 0, |data|, FTYP).Some?
    ensures var b, out := FindChild(data, 0, |data|, FTYP).value, Normalized(data);
            && FindChild(out, 0, |out|, FTYP) == Some(b)
            && (b.Body() + 4 <= |data| ==> Read32(out, b.Body()) == MP42)
            && (forall i: nat :: b.Body() + 8 + 4 * i + 4 <= b.End() ==> Read32(out, b.Body() + 8 + 4 * i) != QT)
            && Normalized(out) == out
  {
    hide FindChild, Brand, Compatible, FromBE;
    var b := FindChild(data, 0, |data|, FTYP).value;
    FtypStays(data);
    AllDone(Major(data, b.Body()), b.Body() + 8, b.End());
    NothingLeft(Normalized(data), b.Body() + 8, b.End());
  }

  lemma AllDone(data: seq<byte>, p: nat, end: nat)
    requires end <= |data|
    ensures forall i: nat :: p + 4 * i + 4 <= end ==> Read32(Compatible(data, p, end), p + 4 * i) != QT
  {
    hide Compatible, FromBE;
    forall i: nat | p + 4 * i + 4 <= end ensures Read32(Compatible(data, p, end), p + 4 * i) != QT {
      CompatibleDone(data, p, end, i);
    }
  }

  // ----- the bytes around the box -----

  /** Every byte outside the box is as it was. */
  ghost predicate KeptOutside(data: seq<byte>, out: seq<byte>, b: Box) {
    |out| == |data| && forall k :: 0 <= k < |data| && !(b.offset <= k < b.End()) ==> out[k] == data[k]
  }

  /** Four bytes for a major brand fit the box, or the buffer ends, or what stands behind the box already
      reads as the rest of the brand. */
  predicate MajorFits(data: seq<byte>, b: Box) {
    b.Body() + 4 <= b.End() || b.Body() + 4 > |data|
    || (b.Body() <= b.End() && data[b.End()..b.Body() + 4] == Brand(MP42)[b.End() - b.Body()..])
  }

  /** The code measures the major brand against the buffer, not against the box: the bytes outside the box
      stay exactly if a major brand fits it. */
  lemma BrandsFrame(data: seq<byte>)
    requires FindChild(data, 0, |data|, FTYP).Some?
    ensures var b := FindChild(data, 0, |data|, FTYP).value;
            KeptOutside(data, Normalized(data), b) <==> MajorFits(data, b)
  {
    hide FindChild, Brand, Compatible;
    var b := FindChild(data, 0, |data|, FTYP).value;
    var m := Major(data, b.Body());
    forall k | 0 <= k < |data| && !(b.Body() + 8 <= k < b.End()) ensures Normalized(data)[k] == m[k] {
      CompatibleOutside(m, b.Body() + 8, b.End(), k);
    }
    MajorFrame(data, b);
  }

  lemma MajorBytes(data: seq<byte>, p: nat)
    requires p + 4 <= |data|
    ensures Major(data, p)[p..p + 4] == Brand(MP42)
  {
    ToFromBE(data[p..p + 4]);
  }

  lemma MajorFrame(data: seq<byte>, b: Box)
    requires InBuffer(b, data)
    ensures KeptOutside(data, Major(data, b.Body()), b) <==> MajorFits(data, b)
  {
    hide Brand;
    BrandsRead();
    var p, m := b.Body(), Major(data, b.Body());
    if p + 4 <= |data| && b.End() < p + 4 {
      MajorBytes(data, p);
      forall k | b.End() <= k < p + 4 ensures m[k] == Brand(MP42)[k - p] {
        assert m[p..p + 4][k - p] == m[k];
      }
      if KeptOutside(data, m, b) {
        assert data[b.End()..p + 4] == m[b.End()..p + 4] == m[p..p + 4][b.End() - p..];
      }
    }
  }

  const EMPTY_FTYP: seq<byte> := [0, 0, 0, 8] + [0x66, 0x74, 0x79, 0x70] + [0, 0, 0, 8] + [0x66, 0x72, 0x65, 0x65]

  lemma EmptyFtypThere()
    ensures ReadBox(EMPTY_FTYP, 0) == Some(Box(0, 8, 8, FTYP)) && Read32(EMPTY_FTYP, 8) == 8
  {
    hide FromBE;
    Four([0, 0, 0, 8]);
    Four([0x66, 0x74, 0x79, 0x70]);
    assert EMPTY_FTYP[0..4] == [0, 0, 0, 8] == EMPTY_FTYP[8..12];
    assert EMPTY_FTYP[4..8] == [0x66, 0x74, 0x79, 0x70];
  }

  /** An ftyp box without a brand, in front of another box: that box loses its size field. */
  lemma EmptyFtypHitsNextBox()
    ensures FindChild(EMPTY_FTYP, 0, |EMPTY_FTYP|, FTYP) == Some(Box(0, 8, 8, FTYP))
    ensures Read32(EMPTY_FTYP, 8) == 8 && Read32(Normalized(EMPTY_FTYP), 8) == MP42
  {
    hide ReadBox, Brand, FromBE;
    EmptyFtypThere();
    BrandsRead();
    assert Compatible(Major(EMPTY_FTYP, 8), 16, 8) == Major(EMPTY_FTYP, 8);
    MajorBytes(EMPTY_FTYP, 8);
  }
}
