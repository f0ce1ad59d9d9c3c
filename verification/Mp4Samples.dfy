/**
 Chunk offsets are absolute file positions. An edit of a moov in a file `pre + moov + post`
 moves what is behind the moov; here is what the shift of the offsets then means for
 the samples they address.
 */
module Mp4Samples {
  import opened Bytes
  import opened Mp4Boxes
  import opened Mp4Tree
  import opened Mp4Shift

  /** No offset points into the moov itself. */
  ghost predicate ApartFrom(es: seq<Entry>, base: nat, len: nat) {
    forall e <- es :: e.value < base || e.value >= base + len
  }

  predicate Holds(width: nat, v: int) {
    0 <= v < Pow256(width) && (width == 8 ==> v < INT64_LIMIT)
  }

  /** Offsets behind the moov, moved on by `more`, still fit their fields. */
  ghost predicate RoomFor(es: seq<Entry>, from: nat, more: nat) {
    forall e <- es :: e.value >= from ==> Holds(e.width, e.value + more)
  }

  /** Where an offset must point once a moov at base has changed its length. */
  predicate Moves(e: Entry, n: Entry, base: nat, oldLen: nat, newLen: nat) {
    && n.width == e.width
    && n.value == if e.value < base then e.value else e.value + newLen - oldLen
  }

  ghost predicate AllMove(es: seq<Entry>, ns: seq<Entry>, base: nat, oldLen: nat, newLen: nat) {
    |ns| == |es| && forall i :: 0 <= i < |es| ==> Moves(es[i], ns[i], base, oldLen, newLen)
  }

  /** A number of 64 bits as the signed number the code takes it for. */
  function AsInt64(v: nat): int {
    if v < INT64_LIMIT then v else v - 2 * INT64_LIMIT
  }

  function Wrapped64(x: int): int {
    (x + INT64_LIMIT) % (2 * INT64_LIMIT) - INT64_LIMIT
  }

  /** 64-bit entries are compared and moved as signed numbers, so one with its top bit set is in front of
      every insert position; 32-bit entries are unsigned. */
  lemma EntryMoves(v: nat, width: nat, insertPos: nat, delta: int)
    requires (width == 4 || width == 8) && v < Pow256(width)
    ensures var n := NewOffset(v, width, insertPos, delta);
            if width == 8
            then AsInt64(n) == if AsInt64(v) < insertPos then AsInt64(v) else Wrapped64(AsInt64(v) + delta)
            else n == if v < insertPos then v else (v + delta) % 0x1_0000_0000
  {
    Pow256Values();
  }

  lemma SmallMod(x: nat, m: nat)
    requires x < m
    ensures x % m == x
  {
  }

  lemma ShiftedMoves(es: seq<Entry>, ns: seq<Entry>, base: nat, at: nat, oldLen: nat, delta: int)
    requires AllShifted(es, ns, base + at, delta) && at <= oldLen && 0 <= oldLen + delta
    requires ApartFrom(es, base, oldLen) && RoomFor(es, base + oldLen, if delta > 0 then delta else 0)
    ensures AllMove(es, ns, base, oldLen, oldLen + delta)
  {
    hide Pow256;
    forall i | 0 <= i < |es| ensures Moves(es[i], ns[i], base, oldLen, oldLen + delta) {
      var e := es[i];
      assert e in es;
      if e.value >= base {
        SmallMod(e.value + delta, Pow256(e.width));
      }
    }
  }

  lemma MovedTwice(es: seq<Entry>, ms: seq<Entry>, ns: seq<Entry>, base: nat, a: nat, b: nat, c: nat)
    requires AllMove(es, ms, base, a, b) && AllMove(ms, ns, base, b, c) && ApartFrom(es, base, a)
    ensures AllMove(es, ns, base, a, c)
  {
    forall i | 0 <= i < |es| ensures Moves(es[i], ns[i], base, a, c) {
      assert es[i] in es;
      assert Moves(es[i], ms[i], base, a, b) && Moves(ms[i], ns[i], base, b, c);
    }
  }

  /** After a move the offsets are apart from the new moov, with the room that is left. */
  lemma MovedApart(es: seq<Entry>, ns: seq<Entry>, base: nat, a: nat, b: nat, more: nat)
    requires AllMove(es, ns, base, a, b) && ApartFrom(es, base, a)
    requires b <= a && RoomFor(es, base + a, more)
    ensures ApartFrom(ns, base, b) && RoomFor(ns, base + b, more)
  {
    forall n | n in ns
      ensures (n.value < base || n.value >= base + b) && (n.value >= base + b ==> Holds(n.width, n.value + more))
    {
      var i :| 0 <= i < |ns| && ns[i] == n;
      assert es[i] in es && Moves(es[i], ns[i], base, a, b);
    }
  }

  /** n bytes at v that the moov has no part in. */
  predicate Sample(v: nat, n: nat, base: nat, len: nat, total: nat) {
    v + n <= total && (v + n <= base || v >= base + len)
  }

  /** Every offset addresses in the new file the bytes the old one addressed in the old file, be
      they one byte or a whole run of samples. */
  ghost predicate SamplesKept(pre: seq<byte>, before: seq<byte>, after: seq<byte>, post: seq<byte>, es: seq<Entry>,
                              ns: seq<Entry>) {
    && |ns| == |es|
    && forall i, n: nat :: 0 <= i < |es| && Sample(es[i].value, n, |pre|, |before|, |pre + before + post|) ==>
         Same(pre + before + post, es[i].value, pre + after + post, ns[i].value, n)
  }

  lemma Behind(front: seq<byte>, post: seq<byte>, p: nat, n: nat)
    requires p + n <= |post|
    ensures (front + post)[|front| + p..|front| + p + n] == post[p..p + n]
  {
  }

  lemma BytesMoved(pre: seq<byte>, before: seq<byte>, after: seq<byte>, post: seq<byte>, v: nat, n: nat)
    requires Sample(v, n, |pre|, |before|, |pre + before + post|) && (v < |pre| || v >= |pre| + |before|)
    ensures Same(pre + before + post, v, pre + after + post, if v < |pre| then v else v + |after| - |before|, n)
  {
    var file, out := pre + before + post, pre + after + post;
    if v < |pre| {
      assert file[v..v + n] == pre[v..v + n] == out[v..v + n];
    } else {
      var p := v - |pre| - |before|;
      Behind(pre + before, post, p, n);
      Behind(pre + after, post, p, n);
    }
  }

  /** Offsets that moved with the bytes behind the moov keep their samples. */
  lemma MovedKeepsSamples(pre: seq<byte>, before: seq<byte>, after: seq<byte>, post: seq<byte>, es: seq<Entry>,
                          ns: seq<Entry>)
    requires ApartFrom(es, |pre|, |before|) && AllMove(es, ns, |pre|, |before|, |after|)
    ensures SamplesKept(pre, before, after, post, es, ns)
  {
    forall i, n: nat | 0 <= i < |es| && Sample(es[i].value, n, |pre|, |before|, |pre + before + post|)
      ensures Same(pre + before + post, es[i].value, pre + after + post, ns[i].value, n)
    {
      assert es[i] in es && Moves(es[i], ns[i], |pre|, |before|, |after|);
      BytesMoved(pre, before, after, post, es[i].value, n);
    }
  }
}
