/**
 The edit distance behind string matching: a dynamic program over a matrix,
 proved to be the length of a shortest chain of single-byte edits, and a metric.
 */
module EditDistance {
  import opened Bytes

  type Str = seq<byte>

  function Init(s: Str): Str
    requires s != []
  {
    s[..|s| - 1]
  }

  function Last(s: Str): byte
    requires s != []
  {
    s[|s| - 1]
  }

  function Min3(x: int, y: int, z: int): int {
    if x <= y && x <= z then x else if y <= z then y else z
  }

  function Cost(x: byte, y: byte): nat {
    if x == y then 0 else 1
  }

  /** The recurrence the matrix tabulates. */
  function Lev(a: Str, b: Str): (d: nat)
    decreases |a| + |b|
  {
    if a == [] then |b|
    else if b == [] then |a|
    else Min3(Lev(Init(a), b) + 1, Lev(a, Init(b)) + 1, Lev(Init(a), Init(b)) + Cost(Last(a), Last(b)))
  }

  /** The distance between the first i bytes of s1 and the first j bytes of s2. */
  function Cell(s1: Str, s2: Str, i: nat, j: nat): (d: nat)
    requires i <= |s1| && j <= |s2|
  {
    Lev(s1[..i], s2[..j])
  }

  lemma CellStep(s1: Str, s2: Str, i: nat, j: nat)
    requires i <= |s1| && j <= |s2|
    ensures i == 0 ==> Cell(s1, s2, i, j) == j
    ensures j == 0 ==> Cell(s1, s2, i, j) == i
    ensures 0 < i && 0 < j ==>
      Cell(s1, s2, i, j) == Min3(Cell(s1, s2, i - 1, j) + 1, Cell(s1, s2, i, j - 1) + 1,
                                 Cell(s1, s2, i - 1, j - 1) + Cost(s1[i - 1], s2[j - 1]))
  {
    if 0 < i && 0 < j {
      assert Init(s1[..i]) == s1[..i - 1] && Init(s2[..j]) == s2[..j - 1];
    }
  }

  /** The matrix program. */
  method LevenshteinDistance(s1: Str, s2: Str) returns (distance: nat)
    ensures distance == Lev(s1, s2)
  {
    if |s1| == 0 { return |s2|; }
    if |s2| == 0 { return |s1|; }

    var matrix := new nat[|s1| + 1, |s2| + 1];
    for i := 0 to |s1| + 1
      invariant forall k :: 0 <= k < i ==> matrix[k, 0] == k
    {
      matrix[i, 0] := i;
    }
    for j := 0 to |s2| + 1
      invariant forall k :: 0 <= k <= |s1| ==> matrix[k, 0] == k
      invariant forall k :: 0 <= k < j ==> matrix[0, k] == k
    {
      matrix[0, j] := j;
    }
    forall l | 0 <= l <= |s2| ensures matrix[0, l] == Cell(s1, s2, 0, l) {
      CellStep(s1, s2, 0, l);
    }

    for i := 1 to |s1| + 1
      invariant forall k, l :: 0 <= k < i && 0 <= l <= |s2| ==> matrix[k, l] == Cell(s1, s2, k, l)
      invariant forall k :: 0 <= k <= |s1| ==> matrix[k, 0] == k
    {
      CellStep(s1, s2, i, 0);
      for j := 1 to |s2| + 1
        invariant forall k, l :: 0 <= k < i && 0 <= l <= |s2| ==> matrix[k, l] == Cell(s1, s2, k, l)
        invariant forall l :: 0 <= l < j ==> matrix[i, l] == Cell(s1, s2, i, l)
        invariant forall k :: 0 <= k <= |s1| ==> matrix[k, 0] == k
      {
        var cost := 1;
        if s1[i - 1] == s2[j - 1] {
          cost := 0;
        }
        CellStep(s1, s2, i, j);
        matrix[i, j] := Min3(matrix[i - 1, j] + 1, matrix[i, j - 1] + 1, matrix[i - 1, j - 1] + cost);
      }
    }
    assert s1[..|s1|] == s1 && s2[..|s2|] == s2;
    distance := matrix[|s1|, |s2|];
  }

  // ----- the distance is a metric -----

  lemma {:induction false} Symmetric(a: Str, b: Str)
    ensures Lev(a, b) == Lev(b, a)
    decreases |a| + |b|
  {
    if a != [] && b != [] {
      Symmetric(Init(a), b);
      Symmetric(a, Init(b));
      Symmetric(Init(a), Init(b));
    }
  }

  /** The length difference bounds the distance from below, the longer length from above. */
  lemma {:induction false} LengthBounds(a: Str, b: Str)
    ensures |a| - |b| <= Lev(a, b) && |b| - |a| <= Lev(a, b)
    ensures Lev(a, b) <= if |a| < |b| then |b| else |a|
    decreases |a| + |b|
  {
    if a != [] && b != [] {
      LengthBounds(Init(a), b);
      LengthBounds(a, Init(b));
      LengthBounds(Init(a), Init(b));
    }
  }

  lemma {:induction false} ZeroIffEqual(a: Str, b: Str)
    ensures Lev(a, b) == 0 <==> a == b
    decreases |a| + |b|
  {
    if a != [] && b != [] {
      ZeroIffEqual(Init(a), Init(b));
      assert a == Init(a) + [Last(a)] && b == Init(b) + [Last(b)];
    }
  }

  lemma {:induction false} Triangle(a: Str, b: Str, c: Str)
    ensures Lev(a, c) <= Lev(a, b) + Lev(b, c)
    decreases |a| + |b| + |c|
  {
    if a == [] || b == [] || c == [] {
      LengthBounds(a, b);
      LengthBounds(b, c);
      LengthBounds(a, c);
    } else if Lev(a, b) == Lev(Init(a), b) + 1 {
      Triangle(Init(a), b, c);
    } else if Lev(b, c) == Lev(b, Init(c)) + 1 {
      Triangle(a, b, Init(c));
    } else if Lev(a, b) == Lev(a, Init(b)) + 1 {
      if Lev(b, c) == Lev(Init(b), c) + 1 {
        Triangle(a, Init(b), c);
      } else {
        Triangle(a, Init(b), Init(c));
      }
    } else if Lev(b, c) == Lev(Init(b), c) + 1 {
      Triangle(Init(a), Init(b), c);
    } else {
      Triangle(Init(a), Init(b), Init(c));
    }
  }

  // ----- the distance is the length of a shortest chain of edits -----

  ghost predicate Inserts(s: Str, t: Str) {
    exists i, x :: 0 <= i <= |s| && t == s[..i] + [x] + s[i..]
  }

  ghost predicate Substitutes(s: Str, t: Str) {
    exists i, x :: 0 <= i < |s| && t == s[..i] + [x] + s[i + 1..]
  }

  /** One byte inserted, deleted or substituted, anywhere in the string. */
  ghost predicate OneEdit(s: Str, t: Str) {
    Inserts(s, t) || Inserts(t, s) || Substitutes(s, t)
  }

  /** A chain of strings, each one edit away from the one before; it uses |chain| - 1 edits. */
  ghost predicate EditChain(chain: seq<Str>, a: Str, b: Str) {
    && chain != [] && chain[0] == a && chain[|chain| - 1] == b
    && forall k :: 0 <= k < |chain| - 1 ==> OneEdit(chain[k], chain[k + 1])
  }

  lemma {:induction false} CommonSuffix(a: Str, b: Str, tail: Str)
    ensures Lev(a + tail, b + tail) <= Lev(a, b)
    decreases |tail|
  {
    if tail == [] {
      assert a + tail == a && b + tail == b;
    } else {
      CommonSuffix(a, b, Init(tail));
      assert Init(a + tail) == a + Init(tail) && Init(b + tail) == b + Init(tail);
    }
  }

  lemma InsertIsNear(s: Str, t: Str)
    requires Inserts(s, t)
    ensures Lev(s, t) <= 1
  {
    var i, x :| 0 <= i <= |s| && t == s[..i] + [x] + s[i..];
    var p := s[..i];
    assert s == p + s[i..] && Init(p + [x]) == p;
    CommonSuffix(p, p + [x], s[i..]);
    ZeroIffEqual(p, p);
  }

  lemma SubstituteIsNear(s: Str, t: Str)
    requires Substitutes(s, t)
    ensures Lev(s, t) <= 1
  {
    var i, x :| 0 <= i < |s| && t == s[..i] + [x] + s[i + 1..];
    var p := s[..i];
    assert s == (p + [s[i]]) + s[i + 1..];
    assert Init(p + [s[i]]) == p == Init(p + [x]);
    CommonSuffix(p + [s[i]], p + [x], s[i + 1..]);
    ZeroIffEqual(p, p);
  }

  lemma OneEditIsNear(s: Str, t: Str)
    requires OneEdit(s, t)
    ensures Lev(s, t) <= 1
  {
    if Substitutes(s, t) {
      SubstituteIsNear(s, t);
    } else if Inserts(s, t) {
      InsertIsNear(s, t);
    } else {
      InsertIsNear(t, s);
      Symmetric(s, t);
    }
  }

  /** No chain of edits is shorter than the distance. */
  lemma {:induction false} NoShorterChain(chain: seq<Str>, a: Str, b: Str)
    requires EditChain(chain, a, b)
    ensures Lev(a, b) <= |chain| - 1
    decreases |chain|
  {
    if |chain| == 1 {
      ZeroIffEqual(a, b);
    } else {
      NoShorterChain(chain[1..], chain[1], b);
      OneEditIsNear(a, chain[1]);
      Triangle(a, chain[1], b);
    }
  }

  lemma ExtendFront(a: Str, chain: seq<Str>, m: Str, b: Str)
    requires EditChain(chain, m, b) && OneEdit(a, m)
    ensures EditChain([a] + chain, a, b)
  {
  }

  lemma ExtendBack(a: Str, chain: seq<Str>, m: Str, b: Str)
    requires EditChain(chain, a, m) && OneEdit(m, b)
    ensures EditChain(chain + [b], a, b)
  {
  }

  lemma SubstituteUnderSuffix(s: Str, t: Str, x: byte)
    requires Substitutes(s, t)
    ensures Substitutes(s + [x], t + [x])
  {
    var i, y :| 0 <= i < |s| && t == s[..i] + [y] + s[i + 1..];
    assert t + [x] == (s + [x])[..i] + [y] + (s + [x])[i + 1..];
  }

  lemma InsertUnderSuffix(s: Str, t: Str, x: byte)
    requires Inserts(s, t)
    ensures Inserts(s + [x], t + [x])
  {
    var i, y :| 0 <= i <= |s| && t == s[..i] + [y] + s[i..];
    assert t + [x] == (s + [x])[..i] + [y] + (s + [x])[i..];
  }

  lemma EditUnderSuffix(s: Str, t: Str, x: byte)
    requires OneEdit(s, t)
    ensures OneEdit(s + [x], t + [x])
  {
    hide Substitutes, Inserts;
    if Substitutes(s, t) {
      SubstituteUnderSuffix(s, t, x);
    } else if Inserts(s, t) {
      InsertUnderSuffix(s, t, x);
    } else {
      InsertUnderSuffix(t, s, x);
    }
  }

  /** A chain of edits works as well in front of one more byte. */
  lemma ChainUnderSuffix(chain: seq<Str>, a: Str, b: Str, x: byte) returns (lifted: seq<Str>)
    requires EditChain(chain, a, b)
    ensures EditChain(lifted, a + [x], b + [x]) && |lifted| == |chain|
  {
    hide OneEdit;
    lifted := seq(|chain|, k requires 0 <= k < |chain| => chain[k] + [x]);
    forall k | 0 <= k < |lifted| - 1 ensures OneEdit(lifted[k], lifted[k + 1]) {
      EditUnderSuffix(chain[k], chain[k + 1], x);
    }
  }

  lemma LastEdit(s: Str, x: byte, y: byte)
    ensures OneEdit(s, s + [x]) && OneEdit(s + [x], s)
    ensures OneEdit(s + [x], s + [y])
  {
    assert s + [x] == s[..|s|] + [x] + s[|s|..];
    var sx := s + [x];
    assert s + [y] == sx[..|s|] + [y] + sx[|s| + 1..];
  }

  lemma NoEdit(a: Str)
    ensures EditChain([a], a, a)
  {
  }

  /** Some chain of edits is exactly as long as the distance. */
  lemma {:induction false} ShortestChain(a: Str, b: Str) returns (chain: seq<Str>)
    ensures EditChain(chain, a, b) && |chain| - 1 == Lev(a, b)
    decreases |a| + |b|
  {
    hide OneEdit, EditChain;
    if a == [] && b == [] {
      NoEdit(a);
      chain := [a];
    } else if b == [] || (a != [] && Lev(a, b) == Lev(Init(a), b) + 1) {
      var rest := ShortestChain(Init(a), b);
      assert a == Init(a) + [Last(a)];
      LastEdit(Init(a), Last(a), Last(a));
      ExtendFront(a, rest, Init(a), b);
      chain := [a] + rest;
    } else if a == [] || Lev(a, b) == Lev(a, Init(b)) + 1 {
      var rest := ShortestChain(a, Init(b));
      assert b == Init(b) + [Last(b)];
      LastEdit(Init(b), Last(b), Last(b));
      ExtendBack(a, rest, Init(b), b);
      chain := rest + [b];
    } else {
      var rest := ShortestChain(Init(a), Init(b));
      var y := Last(b);
      var lifted := ChainUnderSuffix(rest, Init(a), Init(b), y);
      assert a == Init(a) + [Last(a)] && b == Init(b) + [y];
      if Last(a) == y {
        chain := lifted;
      } else {
        LastEdit(Init(a), Last(a), y);
        ExtendFront(a, lifted, Init(a) + [y], b);
        chain := [a] + lifted;
      }
    }
  }

  // ----- the similarity ratio -----

  function Similarity(s1: Str, s2: Str): real {
    if |s1| == 0 && |s2| == 0 then 1.0
    else if |s1| == 0 || |s2| == 0 then 0.0
    else
      var maxLen := if |s2| > |s1| then |s2| else |s1|;
      1.0 - Lev(s1, s2) as real / maxLen as real
  }

  method CalculateStringSimilarity(s1: Str, s2: Str) returns (similarity: real)
    ensures similarity == Similarity(s1, s2)
    ensures 0.0 <= similarity <= 1.0
    ensures similarity == 1.0 <==> s1 == s2
    ensures var m := Longer(s1, s2); similarity * m as real == (m - Lev(s1, s2)) as real
  {
    hide Lev;
    SimilarityIsRatio(s1, s2);
    SimilarityTimes(s1, s2);
    if |s1| == 0 && |s2| == 0 { return 1.0; }
    if |s1| == 0 || |s2| == 0 { return 0.0; }
    var distance := LevenshteinDistance(s1, s2);
    var maxLen := |s1|;
    if |s2| > maxLen {
      maxLen := |s2|;
    }
    similarity := 1.0 - distance as real / maxLen as real;
  }

  lemma RatioInUnit(d: nat, m: nat)
    requires 0 <= d <= m && m > 0
    ensures 0.0 <= d as real / m as real <= 1.0
    ensures d as real / m as real == 0.0 <==> d == 0
  {
    var q := d as real / m as real;
    assert q * m as real == d as real;
  }

  function Longer(s1: Str, s2: Str): nat {
    if |s2| > |s1| then |s2| else |s1|
  }

  lemma RatioTimes(d: nat, m: nat)
    requires m > 0
    ensures (1.0 - d as real / m as real) * m as real == (m - d) as real
  {
    var q := d as real / m as real;
    assert q * m as real == d as real;
    assert (1.0 - q) * m as real == m as real - q * m as real;
  }

  lemma NothingInCommon(s1: Str, s2: Str)
    requires s1 == [] || s2 == []
    ensures Lev(s1, s2) == Longer(s1, s2)
  {
  }

  /** The similarity is the share of the longer string that need not be edited. */
  lemma SimilarityTimes(s1: Str, s2: Str)
    ensures Similarity(s1, s2) * Longer(s1, s2) as real == (Longer(s1, s2) - Lev(s1, s2)) as real
  {
    hide Lev;
    if s1 == [] || s2 == [] {
      NothingInCommon(s1, s2);
    } else {
      RatioTimes(Lev(s1, s2), Longer(s1, s2));
    }
  }

  lemma SimilarityIsRatio(s1: Str, s2: Str)
    ensures 0.0 <= Similarity(s1, s2) <= 1.0
    ensures Similarity(s1, s2) == 1.0 <==> s1 == s2
    ensures Similarity(s1, s2) == Similarity(s2, s1)
  {
    LengthBounds(s1, s2);
    ZeroIffEqual(s1, s2);
    Symmetric(s1, s2);
    if |s1| > 0 && |s2| > 0 {
      RatioInUnit(Lev(s1, s2), if |s2| > |s1| then |s2| else |s1|);
    }
  }
}
