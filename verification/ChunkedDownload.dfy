/**
 The chunked download: sequential Range requests behind a probe, each with up to three tries,
 appended to a staged file that is promoted at the end. Neither Content-Range nor the object's
 identity is checked again between chunks.
 */
module ChunkedDownload {
  import opened Bytes

  const TRIES := 3
  const READ_SIZE := 32768

  /** The answer to one chunk request; `clean` says whether the body ends without a read error. */
  datatype Reply = NetError | Reply(status: int, body: seq<byte>, clean: bool)

  /** The answer to the i-th chunk request, for the bytes from `from` to `to` inclusive. */
  type Server = (nat, nat, int) -> Reply

  /** What has become of the download when the server has answered some number of requests. */
  datatype Outcome = Running(staged: seq<byte>) | Fail | Promote(content: seq<byte>)

  /** The last byte asked for; total is 0 when the probe named no size. */
  function End(from: nat, total: nat, chunk: nat): int {
    if total > 0 && from + chunk - 1 >= total then total - 1 else from + chunk - 1
  }

  predicate IsBody(r: Reply) {
    r.Reply? && (r.status == 206 || r.status == 200)
  }

  predicate IsRetried(r: Reply) {
    r.NetError? || r.status == 403 || r.status == 429
  }

  /** Whether the loop ends with this answer, which brought `staged` to its present length. */
  predicate EndsWith(r: Reply, staged: seq<byte>, total: nat, chunk: nat)
    requires r.Reply?
  {
    r.status == 200 || (total > 0 && |staged| >= total) || (total == 0 && |r.body| < chunk)
  }

  /** A request asks for at most a chunk, from where the staged bytes end, and for no byte behind the total. */
  lemma AsksInside(from: nat, total: nat, chunk: nat)
    requires chunk > 0 && (total == 0 || from < total)
    ensures var to := End(from, total, chunk);
            && from <= to < from + chunk && (total > 0 ==> to < total)
            && (to + 1 == from + chunk || to + 1 == total)
  {
  }

  /** The download from request i on, with `retry` tries used for the chunk behind `staged`, as it
      stands after n requests. */
  function Chunks(server: Server, i: nat, n: nat, staged: seq<byte>, total: nat, chunk: nat, retry: nat): Outcome
    decreases n - i
  {
    if retry == 0 && total > 0 && |staged| >= total then Promote(staged)
    else if i >= n then Running(staged)
    else
      var r := server(i, |staged|, End(|staged|, total, chunk));
      if IsBody(r) then
        var more := staged + r.body;
        if !r.clean then Fail
        else if EndsWith(r, more, total, chunk) then Promote(more)
        else Chunks(server, i + 1, n, more, total, chunk, 0)
      else if IsRetried(r) && retry < TRIES - 1 then Chunks(server, i + 1, n, staged, total, chunk, retry + 1)
      else Fail
  }

  /** The body, read piece by piece, goes behind what is staged. */
  method CopyBody(before: seq<byte>, body: seq<byte>) returns (staged: seq<byte>, written: nat)
    ensures staged == before + body && written == |body|
  {
    staged, written := before, 0;
    while written < |body|
      invariant written <= |body| && staged == before + body[..written]
    {
      var nr := if |body| - written < READ_SIZE then |body| - written else READ_SIZE;
      assert body[..written] + body[written..written + nr] == body[..written + nr];
      staged := staged + body[written..written + nr];
      written := written + nr;
    }
    assert body[..written] == body;
  }

  /** The same download as the code runs it: `offset`, `totalWritten` and the staged length are equal
      at every chunk boundary. The loop is watched for n requests. */
  method FileDownloadChunked(server: Server, n: nat, total: nat, chunk: nat) returns (out: Outcome, totalWritten: nat)
    ensures out == Chunks(server, 0, n, [], total, chunk, 0)
    ensures out.Promote? ==> totalWritten == |out.content|
    ensures out.Running? ==> totalWritten == |out.staged|
  {
    var offset, i := 0, 0;
    var staged: seq<byte> := [];
    totalWritten := 0;
    while total == 0 || offset < total
      invariant offset == totalWritten == |staged| && i <= n
      invariant Chunks(server, i, n, staged, total, chunk, 0) == Chunks(server, 0, n, [], total, chunk, 0)
      decreases n - i
    {
      var end := if total > 0 && offset + chunk - 1 >= total then total - 1 else offset + chunk - 1;
      if i == n { return Running(staged), totalWritten; }
      var r := server(i, offset, end);
      var retry := 0;
      i := i + 1;
      while !IsBody(r)
        invariant 0 <= retry < TRIES && 1 <= i <= n
        invariant r == server(i - 1, offset, end)
        invariant Chunks(server, i - 1, n, staged, total, chunk, retry) == Chunks(server, 0, n, [], total, chunk, 0)
        decreases n - i
      {
        if !IsRetried(r) || retry == TRIES - 1 { return Fail, totalWritten; }
        if i == n { return Running(staged), totalWritten; }
        r := server(i, offset, end);
        retry := retry + 1;
        i := i + 1;
      }
      var chunkWritten;
      staged, chunkWritten := CopyBody(staged, r.body);
      totalWritten := totalWritten + chunkWritten;
      if !r.clean { return Fail, totalWritten; }
      offset := offset + chunkWritten;
      if r.status == 200 { break; }
      if total > 0 && offset >= total { break; }
      if total == 0 && chunkWritten < chunk { break; }
    }
    out := Promote(staged);
  }

  // ----- a server of one object -----

  function Min(a: int, b: int): int {
    if a < b then a else b
  }

  /** The bytes of the object from `from` to `to` inclusive. */
  function Slice(obj: seq<byte>, from: nat, to: int): seq<byte>
    requires from <= |obj|
  {
    obj[from..if to + 1 < from then from else Min(to + 1, |obj|)]
  }

  /** 206 brings bytes of the range asked for, though perhaps not all or none; 200 the whole object. */
  predicate HonestReply(r: Reply, from: nat, to: int, obj: seq<byte>) {
    r.Reply? ==>
      && (r.status == 206 ==> from < |obj| && r.body <= Slice(obj, from, to))
      && (r.status == 200 && r.clean ==> r.body == obj)
  }

  ghost predicate Honest(server: Server, obj: seq<byte>) {
    forall i, from, to :: HonestReply(server(i, from, to), from, to, obj)
  }

  /** The download ends in a 200 behind bytes that are already staged. */
  predicate EndsLate(server: Server, i: nat, n: nat, staged: seq<byte>, total: nat, chunk: nat, retry: nat)
    decreases n - i
  {
    if (retry == 0 && total > 0 && |staged| >= total) || i >= n then false
    else
      var r := server(i, |staged|, End(|staged|, total, chunk));
      if IsBody(r) then
        r.clean && if EndsWith(r, staged + r.body, total, chunk) then r.status == 200 && staged != []
                   else EndsLate(server, i + 1, n, staged + r.body, total, chunk, 0)
      else IsRetried(r) && retry < TRIES - 1 && EndsLate(server, i + 1, n, staged, total, chunk, retry + 1)
  }

  lemma SliceBehind(obj: seq<byte>, staged: seq<byte>, body: seq<byte>, to: int)
    requires staged <= obj && body <= Slice(obj, |staged|, to)
    ensures staged + body <= obj && |staged + body| <= (if to + 1 < |staged| then |staged| else to + 1)
  {
  }

  /** What is staged after any number of requests, and what is promoted, is a beginning of the object -
      unless a 200 answered behind bytes already staged, and then it is those bytes and the object. */
  lemma {:induction false} StagedIsPrefix(server: Server, i: nat, n: nat, staged: seq<byte>, total: nat, chunk: nat,
                                          retry: nat, obj: seq<byte>)
    requires Honest(server, obj) && staged <= obj && (total > 0 ==> total == |obj|)
    ensures var out := Chunks(server, i, n, staged, total, chunk, retry);
            && (out.Running? ==> out.staged <= obj)
            && (out.Promote? && !EndsLate(server, i, n, staged, total, chunk, retry) ==> out.content <= obj)
            && (out.Promote? && total > 0 && !EndsLate(server, i, n, staged, total, chunk, retry) ==>
                out.content == obj)
            && (EndsLate(server, i, n, staged, total, chunk, retry) ==> out.Promote? && |out.content| > |obj|)
    decreases n - i
  {
    hide Honest;
    if !(retry == 0 && total > 0 && |staged| >= total) && i < n {
      var to := End(|staged|, total, chunk);
      var r := server(i, |staged|, to);
      HonestAt(server, i, |staged|, to, obj);
      if IsBody(r) {
        if r.status == 206 {
          SliceBehind(obj, staged, r.body, to);
        }
        if r.clean && !EndsWith(r, staged + r.body, total, chunk) {
          StagedIsPrefix(server, i + 1, n, staged + r.body, total, chunk, 0, obj);
        }
      } else if IsRetried(r) && retry < TRIES - 1 {
        StagedIsPrefix(server, i + 1, n, staged, total, chunk, retry + 1, obj);
      }
    }
  }

  lemma HonestAt(server: Server, i: nat, from: nat, to: int, obj: seq<byte>)
    requires Honest(server, obj)
    ensures HonestReply(server(i, from, to), from, to, obj)
  {
  }

  /** With a known total the file promoted is the whole object exactly if no 200 came late. */
  lemma PromotedIsWholeIff(server: Server, n: nat, total: nat, chunk: nat, obj: seq<byte>)
    requires Honest(server, obj) && total == |obj| > 0 && Chunks(server, 0, n, [], total, chunk, 0).Promote?
    ensures Chunks(server, 0, n, [], total, chunk, 0).content == obj <==> !EndsLate(server, 0, n, [], total, chunk, 0)
  {
    hide Honest, Chunks, EndsLate;
    StagedIsPrefix(server, 0, n, [], total, chunk, 0, obj);
  }

  /** An honest server that answers the first chunk with a part and the second with the whole object: both
      are promoted, one behind the other. */
  lemma LateFull()
    ensures exists server: Server, obj: seq<byte> ::
              Honest(server, obj) && obj == [1, 2, 3] && Chunks(server, 0, 2, [], 3, 2, 0) == Promote([1, 2, 1, 2, 3])
  {
    var obj: seq<byte> := [1, 2, 3];
    var server: Server := (i: nat, from: nat, to: int) =>
      if i == 0 && from == 0 && to == 1 then Reply(206, [1, 2], true) else Reply(200, [1, 2, 3], true);
    assert Slice(obj, 0, 1) == [1, 2];
    assert Honest(server, obj);
    assert [] + [1, 2] == [1, 2] && [1, 2] + [1, 2, 3] == [1, 2, 1, 2, 3];
    assert Chunks(server, 1, 2, [1, 2], 3, 2, 0) == Promote([1, 2, 1, 2, 3]);
    assert Chunks(server, 0, 2, [], 3, 2, 0) == Chunks(server, 1, 2, [1, 2], 3, 2, 0);
  }

  /** No part of the object comes empty. */
  ghost predicate NonEmptyParts(server: Server, obj: seq<byte>) {
    forall i: nat, from: nat, to: int | from < |obj| ::
      var r := server(i, from, to); r.Reply? && r.status == 206 ==> r.body != []
  }

  lemma NonEmptyAt(server: Server, i: nat, from: nat, to: int, obj: seq<byte>)
    requires NonEmptyParts(server, obj) && from < |obj|
    ensures var r := server(i, from, to);
            r.Reply? && r.status == 206 ==> r.body != []
  {
  }

  /** With a known total and no empty parts the download ends: three requests bring it one byte further, or
      to its end. */
  lemma {:induction false} Terminates(server: Server, i: nat, n: nat, staged: seq<byte>, total: nat, chunk: nat,
                                      retry: nat, obj: seq<byte>)
    requires Honest(server, obj) && NonEmptyParts(server, obj) && staged <= obj && total == |obj| > 0 && retry < TRIES
    requires i + TRIES * (|obj| - |staged|) - retry <= n && (retry > 0 ==> |staged| < |obj|)
    ensures !Chunks(server, i, n, staged, total, chunk, retry).Running?
    decreases n - i
  {
    hide Honest, NonEmptyParts;
    if |staged| < |obj| {
      var to := End(|staged|, total, chunk);
      var r := server(i, |staged|, to);
      HonestAt(server, i, |staged|, to, obj);
      NonEmptyAt(server, i, |staged|, to, obj);
      if IsBody(r) {
        if r.status == 206 {
          SliceBehind(obj, staged, r.body, to);
        }
        if r.clean && !EndsWith(r, staged + r.body, total, chunk) {
          Terminates(server, i + 1, n, staged + r.body, total, chunk, 0, obj);
        }
      } else if IsRetried(r) && retry < TRIES - 1 {
        Terminates(server, i + 1, n, staged, total, chunk, retry + 1, obj);
      }
    }
  }

  /** Every request the loop can make, for bytes of the object, is answered by some of them. */
  ghost predicate PartialInRange(server: Server, obj: seq<byte>) {
    forall i: nat, from: nat, to: int | from < |obj| && from <= to ::
      var r := server(i, from, to); r.Reply? && r.status == 206 && r.clean && r.body != []
  }

  lemma PartialAt(server: Server, i: nat, from: nat, to: int, obj: seq<byte>)
    requires PartialInRange(server, obj) && from < |obj| && from <= to
    ensures var r := server(i, from, to);
            r.Reply? && r.status == 206 && r.clean && r.body != []
  {
  }

  /** An honest server that answers every request for bytes of its object with some of them, however few, gets
      exactly its whole object promoted. */
  lemma WholeIsPromoted(server: Server, n: nat, chunk: nat, obj: seq<byte>)
    requires Honest(server, obj) && PartialInRange(server, obj) && obj != [] && chunk > 0 && n >= |obj|
    ensures Chunks(server, 0, n, [], |obj|, chunk, 0) == Promote(obj)
  {
    hide Honest, Chunks, PartialInRange;
    PartialsPromote(server, 0, n, [], |obj|, chunk, obj);
    StagedIsPrefix(server, 0, n, [], |obj|, chunk, 0, obj);
  }

  lemma {:induction false} PartialsPromote(server: Server, i: nat, n: nat, staged: seq<byte>, total: nat, chunk: nat,
                                           obj: seq<byte>)
    requires Honest(server, obj) && PartialInRange(server, obj) && staged <= obj && total == |obj| > 0 && chunk > 0
    requires i + (|obj| - |staged|) <= n
    ensures Chunks(server, i, n, staged, total, chunk, 0).Promote?
    ensures !EndsLate(server, i, n, staged, total, chunk, 0)
    decreases n - i
  {
    hide Honest, PartialInRange;
    if |staged| < total {
      var to := End(|staged|, total, chunk);
      var r := server(i, |staged|, to);
      HonestAt(server, i, |staged|, to, obj);
      PartialAt(server, i, |staged|, to, obj);
      SliceBehind(obj, staged, r.body, to);
      if !EndsWith(r, staged + r.body, total, chunk) {
        PartialsPromote(server, i + 1, n, staged + r.body, total, chunk, obj);
      }
    }
  }

  /** Answers that are worth another try. */
  predicate IsTransient(r: Reply) {
    r.NetError? || r.status in {403, 429}
  }

  predicate IsPart(r: Reply) {
    r.Reply? && r.status == 206 && r.clean && r.body != []
  }

  /** Every request the loop can make for bytes of the object is answered by some of them, at the latest when it
      is made for the third time, after refusals that are worth another try. */
  ghost predicate PartialInThree(server: Server, obj: seq<byte>) {
    forall i: nat, from: nat, to: int | from < |obj| && from <= to :: AnsweredInThree(server, i, from, to)
  }

  predicate AnsweredInThree(server: Server, i: nat, from: nat, to: int) {
    || IsPart(server(i, from, to))
    || (IsTransient(server(i, from, to))
        && (IsPart(server(i + 1, from, to))
            || (IsTransient(server(i + 1, from, to)) && IsPart(server(i + 2, from, to)))))
  }

  /** A refusal worth another try is repeated, twice at most, whatever was staged; any other ends the download. */
  lemma RetriedIff(server: Server, i: nat, n: nat, staged: seq<byte>, total: nat, chunk: nat, retry: nat)
    requires i < n && !(retry == 0 && total > 0 && |staged| >= total)
    requires !IsBody(server(i, |staged|, End(|staged|, total, chunk)))
    ensures Chunks(server, i, n, staged, total, chunk, retry)
         == if IsTransient(server(i, |staged|, End(|staged|, total, chunk))) && retry < 2
            then Chunks(server, i + 1, n, staged, total, chunk, retry + 1) else Fail
  {
  }

  /** The object gets through a server that refuses for a while: three requests a byte are enough. */
  lemma {:induction false} RefusalsAreOvercome(server: Server, i: nat, n: nat, staged: seq<byte>, chunk: nat,
                                               obj: seq<byte>)
    requires Honest(server, obj) && PartialInThree(server, obj) && obj != [] && chunk > 0
    requires staged <= obj && i + 3 * (|obj| - |staged|) <= n
    ensures Chunks(server, i, n, staged, |obj|, chunk, 0) == Promote(obj)
    decreases |obj| - |staged|
  {
    hide Honest, PartialInThree, Chunks;
    if |staged| == |obj| {
      AllStaged(server, i, n, staged, chunk, obj);
    } else {
      var to := End(|staged|, |obj|, chunk);
      AnsweredAt(server, i, |staged|, to, obj);
      var j := if IsPart(server(i, |staged|, to)) then i else if IsPart(server(i + 1, |staged|, to)) then i + 1
               else i + 2;
      if i < j {
        RetriedIff(server, i, n, staged, |obj|, chunk, 0);
      }
      if i + 1 < j {
        RetriedIff(server, i + 1, n, staged, |obj|, chunk, 1);
      }
      HonestAt(server, j, |staged|, to, obj);
      var more := staged + server(j, |staged|, to).body;
      SliceBehind(obj, staged, server(j, |staged|, to).body, to);
      PartTaken(server, j, n, staged, |obj|, chunk, j - i);
      if |more| < |obj| {
        RefusalsAreOvercome(server, j + 1, n, more, chunk, obj);
      }
    }
  }

  lemma AllStaged(server: Server, i: nat, n: nat, staged: seq<byte>, chunk: nat, obj: seq<byte>)
    requires staged == obj != []
    ensures Chunks(server, i, n, staged, |obj|, chunk, 0) == Promote(obj)
  {
  }

  lemma AnsweredAt(server: Server, i: nat, from: nat, to: int, obj: seq<byte>)
    requires PartialInThree(server, obj) && from < |obj| && from <= to
    ensures AnsweredInThree(server, i, from, to)
  {
  }

  lemma PartTaken(server: Server, j: nat, n: nat, staged: seq<byte>, total: nat, chunk: nat, retry: nat)
    requires j < n && |staged| < total && IsPart(server(j, |staged|, End(|staged|, total, chunk)))
    ensures var more := staged + server(j, |staged|, End(|staged|, total, chunk)).body;
            Chunks(server, j, n, staged, total, chunk, retry)
            == if |more| >= total then Promote(more) else Chunks(server, j + 1, n, more, total, chunk, 0)
  {
  }

  /** There is such a server for every object: one byte at a time. */
  lemma ByteByByte(obj: seq<byte>)
    ensures exists server: Server :: Honest(server, obj) && PartialInRange(server, obj) && NonEmptyParts(server, obj)
  {
    var server: Server := (i: nat, from: nat, to: int) =>
      if from < |obj| && from <= to then Reply(206, [obj[from]], true) else Reply(416, [], true);
    forall i: nat, from: nat, to: int ensures HonestReply(server(i, from, to), from, to, obj) {
      if from < |obj| && from <= to {
        assert Slice(obj, from, to)[..1] == [obj[from]];
      }
    }
    assert Honest(server, obj);
    assert PartialInRange(server, obj);
  }

  // ----- an unknown total -----

  /** Full ranges of the object, and 416 behind its end. */
  ghost predicate ServesRanges(server: Server, obj: seq<byte>) {
    forall i, from: nat, to ::
      server(i, from, to) == if from < |obj| then Reply(206, Slice(obj, from, to), true) else Reply(416, [], true)
  }

  /** When the probe names no size, the object is promoted exactly if its length is no multiple of the
      chunk size: otherwise the download asks for one chunk more, is refused, and fails. */
  lemma UnknownTotal(server: Server, n: nat, chunk: nat, obj: seq<byte>)
    requires ServesRanges(server, obj) && chunk > 0 && n > |obj|
    ensures Chunks(server, 0, n, [], 0, chunk, 0) == if |obj| % chunk == 0 then Fail else Promote(obj)
  {
    hide ServesRanges, Chunks;
    UnknownFrom(server, 0, n, 0, chunk, obj);
    assert obj[..0] == [];
  }

  lemma {:induction false} UnknownFrom(server: Server, i: nat, n: nat, k: nat, chunk: nat, obj: seq<byte>)
    requires ServesRanges(server, obj) && chunk > 0 && k * chunk <= |obj| && i + (|obj| - k * chunk) < n
    ensures Chunks(server, i, n, obj[..k * chunk], 0, chunk, 0) == if |obj| % chunk == 0 then Fail else Promote(obj)
    decreases n - i
  {
    hide ServesRanges;
    var from := k * chunk;
    ServesAt(server, i, from, from + chunk - 1, obj);
    if from == |obj| {
      PartChunk(k, chunk, |obj|);
    } else if from + chunk <= |obj| {
      assert Slice(obj, from, from + chunk - 1) == obj[from..from + chunk];
      assert obj[..from] + obj[from..from + chunk] == obj[..from + chunk];
      NextChunk(k, chunk);
      UnknownFrom(server, i + 1, n, k + 1, chunk, obj);
    } else {
      assert Slice(obj, from, from + chunk - 1) == obj[from..];
      assert obj[..from] + obj[from..] == obj;
      PartChunk(k, chunk, |obj|);
    }
  }

  lemma ServesAt(server: Server, i: nat, from: nat, to: int, obj: seq<byte>)
    requires ServesRanges(server, obj)
    ensures server(i, from, to) == if from < |obj| then Reply(206, Slice(obj, from, to), true) else Reply(416, [], true)
  {
  }

  lemma NextChunk(k: nat, chunk: nat)
    ensures (k + 1) * chunk == k * chunk + chunk
  {
  }

  lemma {:induction false} AtLeast(d: nat, chunk: nat)
    requires d > 0
    ensures d * chunk >= chunk
    decreases d
  {
    if d > 1 {
      AtLeast(d - 1, chunk);
      NextChunk(d - 1, chunk);
    }
  }

  /** What is left of n after k chunks, if less than a chunk, is the remainder. */
  lemma PartChunk(k: nat, chunk: nat, n: nat)
    requires k * chunk <= n < k * chunk + chunk
    ensures n % chunk == n - k * chunk
  {
    var q := n / chunk;
    assert n == q * chunk + n % chunk;
    assert (k - q) * chunk == k * chunk - q * chunk;
    assert (q - k) * chunk == q * chunk - k * chunk;
    if k > q {
      AtLeast(k - q, chunk);
    } else if k < q {
      AtLeast(q - k, chunk);
    }
  }

  // ----- when the download never ends -----

  /** An answer that brings nothing and ends nothing. */
  predicate IsEmptyPart(r: Reply) {
    r == Reply(206, [], true)
  }

  /** From request n on, all answers for one offset are empty parts or worth a retry, an empty part first and
      one among any three in a row. */
  ghost predicate Stalls(server: Server, n: nat, from: nat, to: int) {
    && IsEmptyPart(server(n, from, to))
    && (forall j: nat :: j >= n ==> IsEmptyPart(server(j, from, to)) || IsRetried(server(j, from, to)))
    && (forall j: nat :: j >= n ==> SomeEmpty(server, j, from, to))
  }

  predicate SomeEmpty(server: Server, j: nat, from: nat, to: int) {
    IsEmptyPart(server(j, from, to)) || IsEmptyPart(server(j + 1, from, to)) || IsEmptyPart(server(j + 2, from, to))
  }

  /** The tries used for the chunk under way once n requests are answered. */
  function RetryAt(server: Server, i: nat, n: nat, staged: seq<byte>, total: nat, chunk: nat, retry: nat): nat
    decreases n - i
  {
    if (retry == 0 && total > 0 && |staged| >= total) || i >= n then retry
    else
      var r := server(i, |staged|, End(|staged|, total, chunk));
      if IsBody(r) then
        if !r.clean || EndsWith(r, staged + r.body, total, chunk) then 0
        else RetryAt(server, i + 1, n, staged + r.body, total, chunk, 0)
      else if IsRetried(r) && retry < TRIES - 1 then RetryAt(server, i + 1, n, staged, total, chunk, retry + 1)
      else 0
  }

  /** A download still running after n requests goes on from there. */
  lemma {:induction false} GoesOn(server: Server, i: nat, n: nat, m: nat, staged: seq<byte>, total: nat, chunk: nat,
                                  retry: nat)
    requires i <= n <= m && retry < TRIES && Chunks(server, i, n, staged, total, chunk, retry).Running?
    requires total > 0 && (retry > 0 ==> |staged| < total)
    ensures var st := Chunks(server, i, n, staged, total, chunk, retry).staged;
            var k := RetryAt(server, i, n, staged, total, chunk, retry);
            && staged <= st && |st| < total && k < TRIES
            && Chunks(server, i, m, staged, total, chunk, retry) == Chunks(server, n, m, st, total, chunk, k)
    decreases n - i
  {
    if i < n {
      var r := server(i, |staged|, End(|staged|, total, chunk));
      if IsBody(r) {
        GoesOn(server, i + 1, n, m, staged + r.body, total, chunk, 0);
      } else {
        GoesOn(server, i + 1, n, m, staged, total, chunk, retry + 1);
      }
    }
  }

  lemma {:induction false} RanBefore(server: Server, i: nat, n: nat, m: nat, staged: seq<byte>, total: nat, chunk: nat,
                                     retry: nat)
    requires i <= n <= m && Chunks(server, i, m, staged, total, chunk, retry).Running?
    ensures Chunks(server, i, n, staged, total, chunk, retry).Running?
    decreases n - i
  {
    if i < n {
      var r := server(i, |staged|, End(|staged|, total, chunk));
      if IsBody(r) {
        RanBefore(server, i + 1, n, m, staged + r.body, total, chunk, 0);
      } else {
        RanBefore(server, i + 1, n, m, staged, total, chunk, retry + 1);
      }
    }
  }

  /** While the server stalls the download runs and stays where it is; the tries used are the answers
      since the last empty part. */
  lemma {:induction false} StallRuns(server: Server, n: nat, i: nat, m: nat, staged: seq<byte>, total: nat, chunk: nat,
                                     retry: nat)
    requires |staged| < total && Stalls(server, n, |staged|, End(|staged|, total, chunk)) && i >= n
    requires i == n || (retry < TRIES && n + retry <= i)
    requires i > n ==> forall k: nat :: i - retry <= k < i ==>
             !IsEmptyPart(server(k, |staged|, End(|staged|, total, chunk)))
    ensures Chunks(server, i, m, staged, total, chunk, retry) == Running(staged)
    decreases m - i
  {
    if i < m {
      var to := End(|staged|, total, chunk);
      var r := server(i, |staged|, to);
      if IsEmptyPart(r) {
        assert staged + r.body == staged;
        StallRuns(server, n, i + 1, m, staged, total, chunk, 0);
      } else {
        assert retry == 2 ==> SomeEmpty(server, i - 2, |staged|, to);
        StallRuns(server, n, i + 1, m, staged, total, chunk, retry + 1);
      }
    }
  }

  /** However many requests are answered, the download asks again. */
  ghost predicate RunsForever(server: Server, total: nat, chunk: nat) {
    forall m: nat :: Chunks(server, 0, m, [], total, chunk, 0).Running?
  }

  /** The download is under way after n requests, and stalls from there. */
  ghost predicate StallsAt(server: Server, n: nat, total: nat, chunk: nat) {
    var out := Chunks(server, 0, n, [], total, chunk, 0);
    out.Running? && Stalls(server, n, |out.staged|, End(|out.staged|, total, chunk))
  }

  lemma StallHolds(server: Server, n: nat, m: nat, total: nat, chunk: nat)
    requires total > 0 && StallsAt(server, n, total, chunk)
    ensures Chunks(server, 0, m, [], total, chunk, 0).Running?
  {
    hide Chunks, RetryAt, Stalls;
    var top := if m < n then n else m;
    GoesOn(server, 0, n, top, [], total, chunk, 0);
    StallRuns(server, n, n, top, Chunks(server, 0, n, [], total, chunk, 0).staged, total, chunk,
              RetryAt(server, 0, n, [], total, chunk, 0));
    RanBefore(server, 0, m, top, [], total, chunk, 0);
  }

  /** What is staged grows no more from some request on. */
  lemma {:induction false} FindStall(server: Server, i: nat, total: nat, chunk: nat) returns (n: nat)
    requires total > 0 && RunsForever(server, total, chunk)
    ensures StallsAt(server, n, total, chunk)
    decreases total - |Chunks(server, 0, i, [], total, chunk, 0).staged|
  {
    hide Chunks, Stalls;
    GoesOn(server, 0, i, i, [], total, chunk, 0);
    var st := Chunks(server, 0, i, [], total, chunk, 0).staged;
    if j: nat :| j >= i && |Chunks(server, 0, j, [], total, chunk, 0).staged| > |st| {
      GoesOn(server, 0, j, j, [], total, chunk, 0);
      n := FindStall(server, j, total, chunk);
    } else {
      forall j: nat | j >= i ensures Chunks(server, 0, j, [], total, chunk, 0) == Running(st) {
        StaysPrefix(server, i, j, total, chunk);
      }
      n := StallFrom(server, i, st, total, chunk);
    }
  }

  lemma StaysPrefix(server: Server, i: nat, j: nat, total: nat, chunk: nat)
    requires total > 0 && i <= j && RunsForever(server, total, chunk)
    ensures Chunks(server, 0, i, [], total, chunk, 0).Running? && Chunks(server, 0, j, [], total, chunk, 0).Running?
    ensures Chunks(server, 0, i, [], total, chunk, 0).staged <= Chunks(server, 0, j, [], total, chunk, 0).staged
  {
    hide Chunks;
    GoesOn(server, 0, i, j, [], total, chunk, 0);
    GoesOn(server, i, j, j, Chunks(server, 0, i, [], total, chunk, 0).staged, total, chunk,
           RetryAt(server, 0, i, [], total, chunk, 0));
  }

  lemma StallFrom(server: Server, i: nat, st: seq<byte>, total: nat, chunk: nat) returns (n: nat)
    requires total > 0 && forall j: nat :: j >= i ==> Chunks(server, 0, j, [], total, chunk, 0) == Running(st)
    ensures StallsAt(server, n, total, chunk)
  {
    hide Chunks;
    var to := End(|st|, total, chunk);
    forall j: nat | j >= i
      ensures IsEmptyPart(server(j, |st|, to)) || IsRetried(server(j, |st|, to))
      ensures SomeEmpty(server, j, |st|, to)
    {
      OneStill(server, j, st, total, chunk);
      OneStill(server, j + 1, st, total, chunk);
      OneStill(server, j + 2, st, total, chunk);
      ThreeStill(server, j, st, total, chunk);
    }
    assert SomeEmpty(server, i, |st|, to);
    n := if IsEmptyPart(server(i, |st|, to)) then i
         else if IsEmptyPart(server(i + 1, |st|, to)) then i + 1 else i + 2;
  }

  /** An answer that leaves the download running and nothing new staged. */
  lemma OneStill(server: Server, j: nat, st: seq<byte>, total: nat, chunk: nat)
    requires total > 0 && Chunks(server, 0, j, [], total, chunk, 0) == Running(st)
    requires Chunks(server, 0, j + 1, [], total, chunk, 0) == Running(st)
    ensures var r := server(j, |st|, End(|st|, total, chunk));
            IsEmptyPart(r) || IsRetried(r)
  {
    hide RetryAt;
    GoesOn(server, 0, j, j + 1, [], total, chunk, 0);
    AfterOne(server, j, st, total, chunk, RetryAt(server, 0, j, [], total, chunk, 0));
  }

  lemma AfterOne(server: Server, j: nat, st: seq<byte>, total: nat, chunk: nat, retry: nat)
    requires |st| < total && Chunks(server, j, j + 1, st, total, chunk, retry) == Running(st)
    ensures var r := server(j, |st|, End(|st|, total, chunk));
            IsEmptyPart(r) || IsRetried(r)
  {
    var r := server(j, |st|, End(|st|, total, chunk));
    if IsBody(r) {
      assert Chunks(server, j, j + 1, st, total, chunk, retry) == Running(st + r.body);
      assert |st + r.body| == |st| + |r.body|;
    }
  }

  /** Three failed tries in a row would have ended it. */
  lemma ThreeStill(server: Server, j: nat, st: seq<byte>, total: nat, chunk: nat)
    requires total > 0 && Chunks(server, 0, j, [], total, chunk, 0) == Running(st)
    requires Chunks(server, 0, j + 3, [], total, chunk, 0).Running?
    requires var to := End(|st|, total, chunk);
             && (IsEmptyPart(server(j, |st|, to)) || IsRetried(server(j, |st|, to)))
             && (IsEmptyPart(server(j + 1, |st|, to)) || IsRetried(server(j + 1, |st|, to)))
             && (IsEmptyPart(server(j + 2, |st|, to)) || IsRetried(server(j + 2, |st|, to)))
    ensures SomeEmpty(server, j, |st|, End(|st|, total, chunk))
  {
    hide RetryAt, Chunks;
    var to, k := End(|st|, total, chunk), RetryAt(server, 0, j, [], total, chunk, 0);
    GoesOn(server, 0, j, j + 3, [], total, chunk, 0);
    if !SomeEmpty(server, j, |st|, to) {
      ThreeRetries(server, j, st, total, chunk, k);
    }
  }

  lemma ThreeRetries(server: Server, j: nat, st: seq<byte>, total: nat, chunk: nat, retry: nat)
    requires |st| < total && retry < TRIES
    requires var to := End(|st|, total, chunk);
             IsRetried(server(j, |st|, to)) && IsRetried(server(j + 1, |st|, to)) && IsRetried(server(j + 2, |st|, to))
    ensures Chunks(server, j, j + 3, st, total, chunk, retry).Fail?
  {
    assert retry == 0 ==> Chunks(server, j + 2, j + 3, st, total, chunk, 2).Fail?;
    assert retry <= 1 ==> Chunks(server, j + 3 - (2 - retry), j + 3, st, total, chunk, 2).Fail?;
  }

  /** With a known total the download runs on for ever exactly if at some point it reaches the server stalls:
      a non-empty part, a 200, a broken body, a refusal or a third failed try would take it further or end it. */
  lemma RunsForeverIff(server: Server, total: nat, chunk: nat)
    requires total > 0
    ensures RunsForever(server, total, chunk) <==> exists n: nat :: StallsAt(server, n, total, chunk)
  {
    hide Chunks, Stalls, StallsAt;
    if n: nat :| StallsAt(server, n, total, chunk) {
      forall m: nat ensures Chunks(server, 0, m, [], total, chunk, 0).Running? {
        StallHolds(server, n, m, total, chunk);
      }
    }
    if RunsForever(server, total, chunk) {
      var n := FindStall(server, 0, total, chunk);
    }
  }

  /** One such server: it answers the first request for the object, and every further one, with an empty part. */
  lemma EmptyChunksLoop(server: Server, total: nat, chunk: nat)
    requires total > 0 && forall j, to :: server(j, 0, to) == Reply(206, [], true)
    ensures RunsForever(server, total, chunk)
  {
    assert StallsAt(server, 0, total, chunk);
    RunsForeverIff(server, total, chunk);
  }
}
