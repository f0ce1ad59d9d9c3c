/**
 The byte-level parts of the block-cipher helpers: PKCS#7 padding (RFC 5652,
 section 6.3) and the segment-wise CTR transform. The cipher itself is a
 parameter: any key stream, a byte for every IV and position.
 */
module BlockCipher {
  import opened Bytes

  // ----- PKCS#7 -----

  /** `n` bytes of value `b`, as Go's byte(padding) conversion stores them. */
  function Fill(b: nat, n: nat): (s: seq<byte>)
    ensures |s| == n
  {
    seq(n, _ => b % 256)
  }

  function PaddingFor(length: nat, blockSize: nat): (n: nat)
    requires blockSize > 0
    ensures 1 <= n <= blockSize && (length + n) % blockSize == 0
  {
    var q, r := length / blockSize, length % blockSize;
    assert length + (blockSize - r) == (q + 1) * blockSize;
    MultipleHasNoRemainder(q + 1, blockSize);
    blockSize - r
  }

  lemma MultipleHasNoRemainder(q: nat, b: nat)
    requires b > 0
    ensures q * b % b == 0
  {
    RemainderOf(q * b, b, q, 0);
  }

  /** A multiple of b strictly between -b and b is zero. */
  lemma SmallMultiple(d: int, b: nat)
    requires b > 0 && 0 - b < d * b < b
    ensures d == 0
  {
    if d >= 1 {
      MulGrows(d, b);
    } else if d <= -1 {
      assert (-d) * b == 0 - d * b;
      MulGrows(-d, b);
    }
  }

  lemma MulGrows(d: nat, b: nat)
    requires d >= 1
    ensures d * b >= b
  {
    if d > 1 {
      MulGrows(d - 1, b);
      assert d * b == (d - 1) * b + b;
    }
  }

  lemma Divided(x: int, b: nat)
    requires b > 0
    ensures x == x / b * b + x % b && 0 <= x % b < b
  {
  }

  lemma RemainderOf(x: nat, b: nat, q: nat, r: nat)
    requires b > 0 && r < b && x == q * b + r
    ensures x % b == r
  {
    Divided(x, b);
    assert (q - x / b) * b == q * b - x / b * b;
    SmallMultiple(q - x / b, b);
  }

  method ApplyPkcs7Padding(data: seq<byte>, blockSize: nat) returns (padded: seq<byte>)
    requires blockSize > 0
    ensures padded == Padded(data, blockSize)
    ensures data <= padded && |padded| % blockSize == 0 && 1 <= |padded| - |data| <= blockSize
    ensures forall k :: |data| <= k < |padded| ==> padded[k] == (|padded| - |data|) % 256
  {
    var padding := blockSize - |data| % blockSize;
    if padding == 0 {
      padding := blockSize;
    }
    var out := new byte[|data| + padding];
    for i := 0 to |data|
      invariant forall k :: 0 <= k < i ==> out[k] == data[k]
    {
      out[i] := data[i];
    }
    for i := |data| to out.Length
      invariant forall k :: 0 <= k < |data| ==> out[k] == data[k]
      invariant forall k :: |data| <= k < i ==> out[k] == padding % 256
    {
      out[i] := padding % 256;
    }
    padded := out[..];
  }

  function Padded(data: seq<byte>, blockSize: nat): seq<byte>
    requires blockSize > 0
  {
    data + Fill(PaddingFor(|data|, blockSize), PaddingFor(|data|, blockSize))
  }

  predicate ValidPadding(data: seq<byte>, blockSize: nat)
    requires blockSize > 0
  {
    && data != [] && |data| % blockSize == 0
    && var n := data[|data| - 1];
       0 < n <= blockSize && n <= |data| && data[|data| - n..] == Fill(n, n)
  }

  function Unpadded(data: seq<byte>, blockSize: nat): Option<seq<byte>>
    requires blockSize > 0
  {
    if ValidPadding(data, blockSize) then Some(data[..|data| - data[|data| - 1]]) else None
  }

  method RemovePkcs7Padding(data: seq<byte>, blockSize: nat) returns (r: Option<seq<byte>>)
    requires blockSize > 0
    ensures r == Unpadded(data, blockSize)
  {
    if |data| == 0 || |data| % blockSize != 0 { return None; }
    var padding := data[|data| - 1];
    if padding <= 0 || padding > blockSize || padding > |data| { return None; }
    for i := |data| - padding to |data|
      invariant forall k :: |data| - padding <= k < i ==> data[k] == padding
    {
      if data[i] != padding {
        assert data[|data| - padding..][i - (|data| - padding)] != Fill(padding, padding)[i - (|data| - padding)];
        return None;
      }
    }
    r := Some(data[..|data| - padding]);
  }

  /** Removing undoes applying, for every payload, exactly for block sizes up to 255. */
  lemma UnpadOfPad(blockSize: nat)
    requires blockSize > 0
    ensures (forall data: seq<byte> :: Unpadded(Padded(data, blockSize), blockSize) == Some(data))
       <==> blockSize <= 255
  {
    hide Padded, Unpadded;
    if blockSize <= 255 {
      forall data: seq<byte> ensures Unpadded(Padded(data, blockSize), blockSize) == Some(data) {
        UnpadSmall(data, blockSize);
      }
    } else {
      UnpadLarge(blockSize);
    }
  }

  lemma UnpadSmall(data: seq<byte>, blockSize: nat)
    requires 0 < blockSize <= 255
    ensures Unpadded(Padded(data, blockSize), blockSize) == Some(data)
  {
    var n, p := PaddingFor(|data|, blockSize), Padded(data, blockSize);
    assert p[|p| - 1] == n && p[|p| - n..] == Fill(n, n) && p[..|p| - n] == data;
  }

  /** An empty payload gets blockSize bytes of padding, too many for one byte to say. */
  lemma UnpadLarge(blockSize: nat)
    requires blockSize > 255
    ensures Unpadded(Padded([], blockSize), blockSize) != Some([])
  {
    var p := Padded([], blockSize);
    assert p[|p| - 1] == blockSize % 256 != blockSize;
  }

  /** Applying undoes removing: whatever is accepted was padded canonically. */
  lemma PadOfUnpad(padded: seq<byte>, blockSize: nat)
    requires blockSize > 0 && Unpadded(padded, blockSize).Some?
    ensures Padded(Unpadded(padded, blockSize).value, blockSize) == padded
  {
    var data, n := Unpadded(padded, blockSize).value, padded[|padded| - 1] as nat;
    var m := PaddingFor(|data|, blockSize);
    SamePadding(|data|, blockSize, n, m);
    assert padded == data + padded[|padded| - n..];
  }

  lemma SamePadding(length: nat, b: nat, n: nat, m: nat)
    requires 0 < n <= b && 0 < m <= b
    requires (length + n) % b == 0 && (length + m) % b == 0
    ensures n == m
  {
    Divided(length + n, b);
    Divided(length + m, b);
    var q, p := (length + n) / b, (length + m) / b;
    assert (q - p) * b == q * b - p * b == n - m;
    SmallMultiple(q - p, b);
  }

  // ----- CTR segments -----

  /** A key stream: the byte a CTR cipher with this IV produces at this position. */
  type KeyStream = (seq<byte>, nat) -> bv8

  /** One entry of the segments array; the IV is None when it cannot be decoded. */
  datatype Segment = NotAnObject | Segment(offset: int, size: int, iv: Option<seq<byte>>)

  datatype Checked = Bad | Skip | Good(offset: nat, size: nat, iv: seq<byte>)

  /** The checks in source order: an empty segment is skipped before its bounds and IV are looked at. */
  function Check(s: Segment, length: nat, blockSize: nat): (c: Checked)
    ensures c.Good? ==> c.offset + c.size <= length
  {
    if s.NotAnObject? || s.offset < 0 || s.size < 0 then Bad
    else if s.size == 0 then Skip
    else if s.offset + s.size > length || s.iv.None? || |s.iv.value| > blockSize then Bad
    else Good(s.offset, s.size, s.iv.value + seq(blockSize - |s.iv.value|, _ => 0))
  }

  /** A segment is taken exactly if it is not empty, lies in the data and its IV decodes to at most a block; the
      cipher then starts from the given bytes, in front, with zeros behind them. */
  lemma GoodIff(s: Segment, length: nat, blockSize: nat)
    ensures var c := Check(s, length, blockSize);
            && (c.Good? <==> s.Segment? && 0 <= s.offset && 0 < s.size && s.offset + s.size <= length
                             && s.iv.Some? && |s.iv.value| <= blockSize)
            && (c.Good? ==> c.offset == s.offset && c.size == s.size && |c.iv| == blockSize && s.iv.value <= c.iv)
            && (c.Good? ==> forall k :: |s.iv.value| <= k < blockSize ==> c.iv[k] == 0)
            && (c.Skip? <==> s.Segment? && 0 <= s.offset && s.size == 0)
  {
  }

  function XorSegment(data: seq<bv8>, c: Checked, stream: KeyStream): (r: seq<bv8>)
    requires c.Good? ==> c.offset + c.size <= |data|
    ensures |r| == |data|
  {
    seq(|data|, k requires 0 <= k < |data| =>
      if c.Good? && c.offset <= k < c.offset + c.size then data[k] ^ stream(c.iv, k - c.offset) else data[k])
  }

  datatype Outcome = Done(processed: nat) | Failed(index: nat)

  /** The buffer and the outcome after the segments from index `i` on. */
  function Run(data: seq<bv8>, segments: seq<Segment>, blockSize: nat, stream: KeyStream, i: nat, processed: nat)
    : (r: (seq<bv8>, Outcome))
    ensures |r.0| == |data|
    decreases |segments|
  {
    if segments == [] then (data, Done(processed)) else
    var c := Check(segments[0], |data|, blockSize);
    if c.Bad? then (data, Failed(i))
    else Run(XorSegment(data, c, stream), segments[1..], blockSize, stream, i + 1,
             if c.Good? then processed + 1 else processed)
  }

  method DecryptCtrSegments(data: array<bv8>, segments: seq<Segment>, blockSize: nat, stream: KeyStream)
    returns (outcome: Outcome)
    modifies data
    ensures (data[..], outcome) == Run(old(data[..]), segments, blockSize, stream, 0, 0)
  {
    var processed := 0;
    for i := 0 to |segments|
      invariant Run(data[..], segments[i..], blockSize, stream, i, processed)
             == Run(old(data[..]), segments, blockSize, stream, 0, 0)
    {
      assert segments[i..][0] == segments[i] && segments[i..][1..] == segments[i + 1..];
      var c := Check(segments[i], data.Length, blockSize);
      if c.Bad? {
        return Failed(i);
      }
      if c.Good? {
        XorInPlace(data, c, stream);
        processed := processed + 1;
      } else {
        assert XorSegment(data[..], c, stream) == data[..];
      }
    }
    outcome := Done(processed);
  }

  method XorInPlace(data: array<bv8>, c: Checked, stream: KeyStream)
    requires c.Good? && c.offset + c.size <= data.Length
    modifies data
    ensures data[..] == XorSegment(old(data[..]), c, stream)
  {
    for j := 0 to c.size
      invariant forall k :: 0 <= k < data.Length ==>
        data[k] == if c.offset <= k < c.offset + j then old(data[k]) ^ stream(c.iv, k - c.offset) else old(data[k])
    {
      data[c.offset + j] := data[c.offset + j] ^ stream(c.iv, j);
    }
  }

  /** What one segment contributes at position k. */
  function MaskOf(s: Segment, length: nat, blockSize: nat, stream: KeyStream, k: nat): bv8 {
    var c := Check(s, length, blockSize);
    if c.Good? && c.offset <= k < c.offset + c.size then stream(c.iv, k - c.offset) else 0
  }

  /** The key bytes of all segments covering position k, combined. */
  function Mask(segments: seq<Segment>, length: nat, blockSize: nat, stream: KeyStream, k: nat): bv8 {
    if segments == [] then 0
    else MaskOf(segments[0], length, blockSize, stream, k) ^ Mask(segments[1..], length, blockSize, stream, k)
  }

  predicate AllValid(segments: seq<Segment>, length: nat, blockSize: nat) {
    forall s <- segments :: !Check(s, length, blockSize).Bad?
  }

  lemma XorLaws(x: bv8, y: bv8, z: bv8)
    ensures x ^ (y ^ z) == (x ^ y) ^ z
    ensures x ^ y == y ^ x
    ensures x ^ 0 == x && x ^ x == 0
  {
  }

  lemma XorSwap(x: bv8, y: bv8, z: bv8)
    ensures x ^ (y ^ z) == y ^ (x ^ z)
  {
    XorLaws(x, y, z);
    XorLaws(y, x, z);
  }

  lemma MaskStep(data: seq<bv8>, segments: seq<Segment>, blockSize: nat, stream: KeyStream, k: nat)
    requires k < |data| && segments != [] && !Check(segments[0], |data|, blockSize).Bad?
    ensures XorSegment(data, Check(segments[0], |data|, blockSize), stream)[k]
              ^ Mask(segments[1..], |data|, blockSize, stream, k)
         == data[k] ^ Mask(segments, |data|, blockSize, stream, k)
  {
    hide Check;
    var m := MaskOf(segments[0], |data|, blockSize, stream, k);
    XorLaws(data[k], m, Mask(segments[1..], |data|, blockSize, stream, k));
    XorLaws(data[k], 0, 0);
  }

  lemma ValidCons(segments: seq<Segment>, length: nat, blockSize: nat)
    requires segments != []
    ensures AllValid(segments, length, blockSize)
       <==> !Check(segments[0], length, blockSize).Bad? && AllValid(segments[1..], length, blockSize)
  {
    hide Check;
    assert segments == [segments[0]] + segments[1..];
  }

  /** The whole run is one XOR per byte; it succeeds exactly when every segment is valid. */
  lemma {:induction false} RunIsMask(data: seq<bv8>, segments: seq<Segment>, blockSize: nat, stream: KeyStream,
                                     i: nat, processed: nat)
    ensures Run(data, segments, blockSize, stream, i, processed).1.Done? <==> AllValid(segments, |data|, blockSize)
    ensures AllValid(segments, |data|, blockSize) ==>
      forall k :: 0 <= k < |data| ==>
        Run(data, segments, blockSize, stream, i, processed).0[k]
        == data[k] ^ Mask(segments, |data|, blockSize, stream, k)
    decreases |segments|
  {
    hide Check, XorSegment, AllValid, Mask;
    if segments == [] {
      NoSegments(data, blockSize, stream);
    } else {
      ValidCons(segments, |data|, blockSize);
      var c := Check(segments[0], |data|, blockSize);
      if !c.Bad? {
        RunIsMask(XorSegment(data, c, stream), segments[1..], blockSize, stream, i + 1,
                  if c.Good? then processed + 1 else processed);
        forall k | 0 <= k < |data|
          ensures XorSegment(data, c, stream)[k] ^ Mask(segments[1..], |data|, blockSize, stream, k)
               == data[k] ^ Mask(segments, |data|, blockSize, stream, k)
        {
          MaskStep(data, segments, blockSize, stream, k);
        }
      }
    }
  }

  lemma NoSegments(data: seq<bv8>, blockSize: nat, stream: KeyStream)
    ensures AllValid([], |data|, blockSize)
    ensures forall k :: 0 <= k < |data| ==> data[k] == data[k] ^ Mask([], |data|, blockSize, stream, k)
  {
    forall k | 0 <= k < |data| ensures data[k] == data[k] ^ 0 {
      XorLaws(data[k], 0, 0);
    }
  }

  /** How many of these segments are applied, that is, neither empty nor refused. */
  function GoodCount(segments: seq<Segment>, length: nat, blockSize: nat): nat {
    if segments == [] then 0
    else (if Check(segments[0], length, blockSize).Good? then 1 else 0) + GoodCount(segments[1..], length, blockSize)
  }

  /** A run says how many segments it applied, or which one was the first to be refused. */
  lemma {:induction false} OutcomeIs(data: seq<bv8>, segments: seq<Segment>, blockSize: nat, stream: KeyStream,
                                     i: nat, processed: nat)
    ensures match Run(data, segments, blockSize, stream, i, processed).1
            case Done(n) => n == processed + GoodCount(segments, |data|, blockSize)
            case Failed(j) =>
              && i <= j < i + |segments| && Check(segments[j - i], |data|, blockSize).Bad?
              && forall k :: 0 <= k < j - i ==> !Check(segments[k], |data|, blockSize).Bad?
    decreases |segments|
  {
    hide Check, XorSegment;
    if segments != [] {
      var c := Check(segments[0], |data|, blockSize);
      if !c.Bad? {
        var next := if c.Good? then processed + 1 else processed;
        OutcomeIs(XorSegment(data, c, stream), segments[1..], blockSize, stream, i + 1, next);
      }
    }
  }

  /** The segments that are applied: those in front of the first that is refused. */
  function Applied(segments: seq<Segment>, length: nat, blockSize: nat): seq<Segment> {
    if segments == [] || Check(segments[0], length, blockSize).Bad? then []
    else [segments[0]] + Applied(segments[1..], length, blockSize)
  }

  predicate Covers(s: Segment, length: nat, blockSize: nat, k: nat) {
    var c := Check(s, length, blockSize);
    c.Good? && c.offset <= k < c.offset + c.size
  }

  /** A byte of the data that no applied segment covers stays, whether the run succeeds or is refused midway. */
  lemma {:induction false} OutsideUnchanged(data: seq<bv8>, segments: seq<Segment>, blockSize: nat, stream: KeyStream,
                                            i: nat, processed: nat, k: nat)
    requires k < |data| && forall s <- Applied(segments, |data|, blockSize) :: !Covers(s, |data|, blockSize, k)
    ensures Run(data, segments, blockSize, stream, i, processed).0[k] == data[k]
    decreases |segments|
  {
    if segments != [] && !Check(segments[0], |data|, blockSize).Bad? {
      var c, rest := Check(segments[0], |data|, blockSize), Applied(segments[1..], |data|, blockSize);
      assert segments[0] in Applied(segments, |data|, blockSize);
      forall s | s in rest ensures !Covers(s, |data|, blockSize, k) {
        assert s in Applied(segments, |data|, blockSize);
      }
      OutsideUnchanged(XorSegment(data, c, stream), segments[1..], blockSize, stream, i + 1,
                       if c.Good? then processed + 1 else processed, k);
    }
  }

  /** The result of the transform on valid segments, with the bookkeeping left out. */
  function Transformed(data: seq<bv8>, segments: seq<Segment>, blockSize: nat, stream: KeyStream): (r: seq<bv8>)
    ensures |r| == |data|
  {
    Run(data, segments, blockSize, stream, 0, 0).0
  }

  /** Decrypting twice with the same segments gives the data back, even when they overlap. */
  lemma TwiceIsIdentity(data: seq<bv8>, segments: seq<Segment>, blockSize: nat, stream: KeyStream)
    requires AllValid(segments, |data|, blockSize)
    ensures Transformed(Transformed(data, segments, blockSize, stream), segments, blockSize, stream) == data
  {
    var once := Transformed(data, segments, blockSize, stream);
    RunIsMask(data, segments, blockSize, stream, 0, 0);
    RunIsMask(once, segments, blockSize, stream, 0, 0);
    forall k | 0 <= k < |data|
      ensures Transformed(once, segments, blockSize, stream)[k] == data[k]
    {
      var m := Mask(segments, |data|, blockSize, stream, k);
      XorLaws(data[k], m, m);
      XorLaws(data[k], 0, 0);
    }
  }

  /** Taking any one segment out front does not change the combined key bytes. */
  lemma {:induction false} MaskPull(segments: seq<Segment>, i: nat, length: nat, blockSize: nat, stream: KeyStream,
                                    k: nat)
    requires i < |segments|
    ensures Mask(segments, length, blockSize, stream, k)
         == MaskOf(segments[i], length, blockSize, stream, k)
            ^ Mask(segments[..i] + segments[i + 1..], length, blockSize, stream, k)
    decreases i
  {
    if i == 0 {
      assert segments[..0] + segments[1..] == segments[1..];
    } else {
      var rest := segments[..i] + segments[i + 1..];
      MaskPull(segments[1..], i - 1, length, blockSize, stream, k);
      assert rest[1..] == segments[1..][..i - 1] + segments[1..][i..];
      XorSwap(MaskOf(segments[0], length, blockSize, stream, k), MaskOf(segments[i], length, blockSize, stream, k),
              Mask(rest[1..], length, blockSize, stream, k));
    }
  }

  /** Where the first element of s is in a permutation t of s. */
  lemma FindIn<T>(s: seq<T>, t: seq<T>) returns (i: nat)
    requires s != [] && multiset(s) == multiset(t)
    ensures i < |t| && t[i] == s[0]
    ensures multiset(t[..i] + t[i + 1..]) == multiset(s[1..])
  {
    i := IndexIn(s[0], s, t);
    FirstRemoved(s);
    Removed(t, i);
  }

  lemma FirstRemoved<T>(s: seq<T>)
    requires s != []
    ensures multiset(s[1..]) == multiset(s) - multiset{s[0]}
  {
    assert s == [s[0]] + s[1..];
  }

  lemma IndexIn<T>(x: T, s: seq<T>, t: seq<T>) returns (i: nat)
    requires x in s && multiset(s) == multiset(t)
    ensures i < |t| && t[i] == x
  {
    assert x in multiset(t);
    i :| 0 <= i < |t| && t[i] == x;
  }

  lemma Removed<T>(t: seq<T>, i: nat)
    requires i < |t|
    ensures multiset(t[..i] + t[i + 1..]) == multiset(t) - multiset{t[i]}
  {
    assert t == t[..i] + [t[i]] + t[i + 1..];
  }

  lemma {:induction false} MaskPermuted(s: seq<Segment>, t: seq<Segment>, length: nat, blockSize: nat,
                                        stream: KeyStream, k: nat)
    requires multiset(s) == multiset(t)
    ensures Mask(s, length, blockSize, stream, k) == Mask(t, length, blockSize, stream, k)
    decreases |s|
  {
    hide Check;
    if s == [] {
      assert |multiset(t)| == 0;
    } else {
      var i := FindIn(s, t);
      var rest := t[..i] + t[i + 1..];
      MaskPermuted(s[1..], rest, length, blockSize, stream, k);
      MaskPull(t, i, length, blockSize, stream, k);
    }
  }

  /** The order of the segments does not matter. */
  lemma OrderIndependent(data: seq<bv8>, s: seq<Segment>, t: seq<Segment>, blockSize: nat, stream: KeyStream)
    requires AllValid(s, |data|, blockSize) && multiset(s) == multiset(t)
    ensures AllValid(t, |data|, blockSize)
    ensures Transformed(data, s, blockSize, stream) == Transformed(data, t, blockSize, stream)
  {
    assert forall x :: x in t ==> x in multiset(t) && x in multiset(s) && x in s;
    RunIsMask(data, s, blockSize, stream, 0, 0);
    RunIsMask(data, t, blockSize, stream, 0, 0);
    forall k | 0 <= k < |data|
      ensures Transformed(data, s, blockSize, stream)[k] == Transformed(data, t, blockSize, stream)[k]
    {
      MaskPermuted(s, t, |data|, blockSize, stream, k);
    }
  }
}
