/**
 Byte strings, and the fixed-width big- and little-endian integers the binary
 formats of the backend are made of. Go strings and []byte values are both
 sequences of bytes here.
 */
module Bytes {

  type byte = x: int | 0 <= x < 256

  datatype Option<+T> = None | Some(value: T)

  /** 256 to the power `width`: the number of values a field of `width` bytes can hold. */
  function Pow256(width: nat): (p: nat)
    ensures p > 0
  {
    if width == 0 then 1 else 256 * Pow256(width - 1)
  }

  lemma Pow256Values()
    ensures Pow256(2) == 0x1_0000
    ensures Pow256(4) == 0x1_0000_0000
    ensures Pow256(8) == 0x1_0000_0000_0000_0000
  {
    assert Pow256(1) == 256;
    assert Pow256(3) == 256 * Pow256(2);
    assert Pow256(5) == 256 * Pow256(4);
    assert Pow256(6) == 256 * Pow256(5);
    assert Pow256(7) == 256 * Pow256(6);
  }

  /** The low `width` bytes of `n`, most significant first (a truncating PutUint of that width). */
  function ToBE(n: nat, width: nat): (s: seq<byte>)
    ensures |s| == width
    decreases width
  {
    if width == 0 then [] else ToBE(n / 256, width - 1) + [n % 256]
  }

  function FromBE(s: seq<byte>): (n: nat)
    ensures n < Pow256(|s|)
  {
    if s == [] then 0 else FromBE(s[..|s| - 1]) * 256 + s[|s| - 1]
  }

  /** The low `width` bytes of `n`, least significant first. */
  function ToLE(n: nat, width: nat): (s: seq<byte>)
    ensures |s| == width
    decreases width
  {
    if width == 0 then [] else [n % 256] + ToLE(n / 256, width - 1)
  }

  function FromLE(s: seq<byte>): (n: nat)
    ensures n < Pow256(|s|)
  {
    if s == [] then 0 else s[0] + 256 * FromLE(s[1..])
  }

  lemma {:induction false} FromToBE(n: nat, width: nat)
    requires n < Pow256(width)
    ensures FromBE(ToBE(n, width)) == n
    decreases width
  {
    if width > 0 {
      FromToBE(n / 256, width - 1);
      assert ToBE(n, width)[..width - 1] == ToBE(n / 256, width - 1);
    }
  }

  lemma {:induction false} ToFromBE(s: seq<byte>)
    ensures ToBE(FromBE(s), |s|) == s
  {
    if s != [] {
      ToFromBE(s[..|s| - 1]);
    }
  }

  lemma {:induction false} FromToLE(n: nat, width: nat)
    requires n < Pow256(width)
    ensures FromLE(ToLE(n, width)) == n
    decreases width
  {
    if width > 0 {
      FromToLE(n / 256, width - 1);
      assert ToLE(n, width)[1..] == ToLE(n / 256, width - 1);
    }
  }

  /** A 32-bit number, byte by byte. */
  lemma Four(s: seq<byte>)
    requires |s| == 4
    ensures var a: int, b: int, c: int, d: int := s[0], s[1], s[2], s[3];
            FromBE(s) == ((a * 256 + b) * 256 + c) * 256 + d
  {
    assert s[..3][..2] == s[..2] && s[..2][..1] == s[..1] && s[..1][..0] == [];
    assert FromBE(s[..1]) == s[0];
    assert FromBE(s[..2]) == FromBE(s[..1]) * 256 + s[1];
    assert FromBE(s[..3]) == FromBE(s[..2]) * 256 + s[2];
  }

  /** Cutting a known head off a prefix leaves a prefix of what follows the head. */
  lemma CutPrefix<T>(a: seq<T>, head: seq<T>, tail: seq<T>)
    requires a <= head + tail && |head| <= |a|
    ensures a[..|head|] == head && a[|head|..] <= tail
  {
    var all := head + tail;
    assert a == all[..|a|];
    assert all[..|head|] == head && all[|head|..] == tail;
    assert a[|head|..] == tail[..|a| - |head|];
  }

  lemma SliceOfSlice<T>(s: seq<T>, lo: nat, hi: nat, i: nat, j: nat)
    requires i <= j && lo + j <= hi <= |s|
    ensures s[lo..hi][i..j] == s[lo + i..lo + j]
  {
    forall k | 0 <= k < j - i ensures s[lo..hi][i..j][k] == s[lo + i..lo + j][k] {
      assert s[lo..hi][i + k] == s[lo + i + k];
    }
  }

  /** Three adjacent fields, read back one by one. */
  lemma ThreeFields<T>(s: seq<T>, pos: nat, a: seq<T>, b: seq<T>, c: seq<T>)
    requires pos + |a + b + c| <= |s| && s[pos..pos + |a + b + c|] == a + b + c
    ensures s[pos..pos + |a|] == a
    ensures s[pos + |a|..pos + |a| + |b|] == b
    ensures s[pos + |a| + |b|..pos + |a| + |b| + |c|] == c
  {
    var all, n := a + b + c, |a + b + c|;
    SliceOfSlice(s, pos, pos + n, 0, |a|);
    SliceOfSlice(s, pos, pos + n, |a|, |a| + |b|);
    SliceOfSlice(s, pos, pos + n, |a| + |b|, n);
    assert all[0..|a|] == a && all[|a|..|a| + |b|] == b && all[|a| + |b|..n] == c;
  }

  /** What follows `pos` is `head` and then `tail`. */
  lemma SplitTail<T>(s: seq<T>, pos: nat, head: seq<T>, tail: seq<T>)
    requires pos <= |s| && s[pos..] == head + tail
    ensures pos + |head| <= |s| && s[pos..pos + |head|] == head && s[pos + |head|..] == tail
  {
    var rest := s[pos..];
    assert |rest| == |head| + |tail|;
    assert s[pos..pos + |head|] == rest[..|head|];
    assert s[pos + |head|..] == rest[|head|..];
  }

  /** `s` with the bytes from `pos` on replaced by `t`. */
  function Overwrite(s: seq<byte>, pos: nat, t: seq<byte>): (r: seq<byte>)
    requires pos + |t| <= |s|
    ensures |r| == |s|
    ensures r[pos..pos + |t|] == t
    ensures forall i :: 0 <= i < |s| && !(pos <= i < pos + |t|) ==> r[i] == s[i]
  {
    s[..pos] + t + s[pos + |t|..]
  }

  /** Overwriting with bytes that are already there changes nothing but what follows them. */
  lemma OverwriteSame(s: seq<byte>, pos: nat, head: seq<byte>, t: seq<byte>)
    requires pos + |head| + |t| <= |s| && s[pos..pos + |head|] == head
    ensures Overwrite(s, pos, head + t) == Overwrite(s, pos + |head|, t)
  {
    assert s[..pos] + head == s[..pos + |head|];
  }

  /** Overwriting in one go or piece by piece is the same. */
  lemma OverwriteBehind(s: seq<byte>, pos: nat, head: seq<byte>, t: seq<byte>)
    requires pos + |head| + |t| <= |s|
    ensures Overwrite(Overwrite(s, pos, head), pos + |head|, t) == Overwrite(s, pos, head + t)
  {
    var first := Overwrite(s, pos, head);
    assert first[..pos + |head|] == s[..pos] + head;
    assert first[pos + |head| + |t|..] == s[pos + |head| + |t|..];
  }

  /** Stores the bytes `t` into the buffer at `pos`, in place. */
  method Store(buf: array<byte>, pos: nat, t: seq<byte>)
    requires pos + |t| <= buf.Length
    modifies buf
    ensures buf[..] == Overwrite(old(buf[..]), pos, t)
  {
    for i := 0 to |t|
      invariant forall k :: 0 <= k < buf.Length ==>
        buf[k] == if pos <= k < pos + i then t[k - pos] else old(buf[k])
    {
      buf[pos + i] := t[i];
    }
  }
}
