/**
 A download streamed into a staged file, resumed with Range and If-Range after a broken body,
 restarted when the server answers 200, and promoted by rename. The server is any function from
 a request to an answer; an honest one follows RFC 9110 (sections 13.1.5, 14.4 and 15.3.7).
 */
module Download {
  import opened Bytes

  const MAX_RESUMES := 3
  const READ_SIZE := 32768

  /**
   An answer. `length` is the announced length, -1 if none is; `contentRange` the start a
   Content-Range names; `body` the bytes that arrive and `clean` whether the body ends without a
   read error. `whole` is the representation the server is sending from; the code never sees it.
   */
  datatype Reply = NetError | Reply(
    status: int, length: int, etag: string, lastModified: string, contentRange: Option<nat>,
    body: seq<byte>, clean: bool, whole: seq<byte>)

  /** The answer to the i-th request, for the bytes from `from` on if that is not 0, with a validator. */
  type Server = (nat, nat, string) -> Reply

  /** The caller's own Range header: none, one spelt "Range", or one in other letter case, which is
      sent all the same. */
  datatype CallerRange = NoRange | Spelt | OtherCase

  datatype Options = Options(resume: bool, callerRange: CallerRange, cancelled: nat -> bool)

  /** A strong ETag or Last-Modified; a weak ETag is no good for If-Range. */
  function Validator(r: Reply): string
    requires r.Reply?
  {
    if r.etag != "" && !("W/" <= r.etag) then r.etag else r.lastModified
  }

  /** The download with an answer whose body is about to be copied behind `staged`. */
  datatype Attempt = Attempt(
    reply: Reply, staged: seq<byte>, length: int, validator: string, canResume: bool, resumes: nat)

  datatype Outcome = Fail(requests: nat) | Promote(content: seq<byte>, requests: nat)

  datatype Step = Go(a: Attempt) | Done(o: Outcome)

  function Start(server: Server, o: Options): (s: Step)
    ensures s.Go? ==> s.a.reply.Reply? && s.a.resumes == 0
  {
    var r := server(0, 0, "");
    if r.NetError? || r.status < 200 || r.status >= 300 then Done(Fail(1))
    else Go(Attempt(r, [], r.length, Validator(r), o.resume && Validator(r) != "" && !o.callerRange.Spelt?, 0))
  }

  /** After the body: done, given up, or the next answer. */
  function Continue(server: Server, o: Options, a: Attempt): (s: Step)
    requires a.reply.Reply?
    ensures s.Go? ==> s.a.reply.Reply? && s.a.resumes == a.resumes + 1 <= MAX_RESUMES
  {
    var staged := a.staged + a.reply.body;
    if a.reply.clean && (a.length <= 0 || |staged| == a.length) then Done(Promote(staged, a.resumes + 1))
    else if !a.canResume || a.resumes >= MAX_RESUMES || o.cancelled(a.resumes) then Done(Fail(a.resumes + 1))
    else
      var r := server(a.resumes + 1, |staged|, a.validator);
      if r.NetError? then Done(Fail(a.resumes + 2))
      else if r.status == 206 then
        if |staged| > 0 && r.contentRange != Some(|staged|) then Done(Fail(a.resumes + 2))
        else Go(a.(reply := r, staged := staged, resumes := a.resumes + 1))
      else if r.status == 200 then
        Go(Attempt(r, [], if r.length > 0 then r.length else a.length, Validator(r),
                   o.resume && Validator(r) != "", a.resumes + 1))
      else Done(Fail(a.resumes + 2))
  }

  function Finish(server: Server, o: Options, s: Step): Outcome
    requires s.Go? ==> s.a.reply.Reply?
    decreases s.Go?, if s.Go? && s.a.resumes <= MAX_RESUMES then MAX_RESUMES - s.a.resumes else 0
  {
    match s
    case Done(out) => out
    case Go(a) =>
      var next := Continue(server, o, a);
      if next.Go? then Finish(server, o, next) else next.o
  }

  lemma FinishStep(server: Server, o: Options, s: Step)
    requires s.Go? ==> s.a.reply.Reply?
    ensures Finish(server, o, s) == if s.Done? then s.o else Finish(server, o, Continue(server, o, s.a))
  {
  }

  // ----- the download on the file system -----

  /** The two files a download touches: the final path and its staged sibling. */
  class Target {
    var final: Option<seq<byte>>
    var staged: Option<seq<byte>>

    constructor (final: Option<seq<byte>>)
      ensures this.final == final && staged == None
    {
      this.final, staged := final, None;
    }

    method CreateStaged()
      modifies this`staged
      ensures staged == Some([])
    {
      staged := Some([]);
    }

    /** The body, read piece by piece, goes behind what is staged. */
    method CopyBody(body: seq<byte>) returns (written: nat)
      requires staged.Some?
      modifies this`staged
      ensures staged.Some? && staged.value == old(staged.value) + body && written == |body|
    {
      written := 0;
      while written < |body|
        invariant written <= |body| && staged.Some? && staged.value == old(staged.value) + body[..written]
      {
        var n := if |body| - written < READ_SIZE then |body| - written else READ_SIZE;
        assert body[..written] + body[written..written + n] == body[..written + n];
        staged := Some(staged.value + body[written..written + n]);
        written := written + n;
      }
    }

    method Truncate()
      requires staged.Some?
      modifies this`staged
      ensures staged == Some([])
    {
      staged := Some([]);
    }

    /** The atomic rename. */
    method Rename()
      requires staged.Some?
      modifies this
      ensures final == old(staged) && staged == None
    {
      final, staged := staged, None;
    }

    method RemoveStaged()
      modifies this`staged
      ensures staged == None
    {
      staged := None;
    }

    /** fileDownload: copy, resume, restart, promote. */
    method FileDownload(server: Server, o: Options) returns (out: Outcome)
      modifies this
      ensures out == Finish(server, o, Start(server, o))
      ensures staged == None
      ensures final == if out.Promote? then Some(out.content) else old(final)
      ensures forall k: nat :: o.cancelled(k) ==> out.requests <= k + 1
    {
      hide Finish, Validator;
      NoneAfterCancel(server, o);
      FinishStep(server, o, Start(server, o));
      var r := server(0, 0, "");
      if r.NetError? || r.status < 200 || r.status >= 300 { RemoveStaged(); return Fail(1); }
      CreateStaged();
      var length, validator := r.length, Validator(r);
      var canResume, resumes, written := o.resume && validator != "" && !o.callerRange.Spelt?, 0, 0;
      while true
        invariant r.Reply? && staged.Some? && written == |staged.value| && resumes <= MAX_RESUMES
        invariant final == old(final)
        invariant Finish(server, o, Start(server, o))
               == Finish(server, o, Go(Attempt(r, staged.value, length, validator, canResume, resumes)))
        decreases MAX_RESUMES - resumes
      {
        ghost var a := Attempt(r, staged.value, length, validator, canResume, resumes);
        FinishStep(server, o, Go(a));
        FinishStep(server, o, Continue(server, o, a));
        var n := CopyBody(r.body);
        written := written + n;
        if r.clean && (length <= 0 || written == length) { break; }
        if !canResume || resumes >= MAX_RESUMES || o.cancelled(resumes) { RemoveStaged(); return Fail(resumes + 1); }
        resumes := resumes + 1;
        r := server(resumes, written, validator);
        if r.NetError? { RemoveStaged(); return Fail(resumes + 1); }
        if r.status == 206 {
          if written > 0 && r.contentRange != Some(written) { RemoveStaged(); return Fail(resumes + 1); }
        } else if r.status == 200 {
          Truncate();
          written := 0;
          if r.length > 0 { length := r.length; }
          validator := Validator(r);
          canResume := o.resume && validator != "";
        } else {
          RemoveStaged();
          return Fail(resumes + 1);
        }
      }
      out := Promote(staged.value, resumes + 1);
      Rename();
    }
  }

  // ----- an honest server -----

  /** The object each validator names. */
  type Objects = string -> seq<byte>

  /**
   A full answer sends its representation from the start and announces the true length or none;
   its validator names the representation. A partial answer comes only to a request with a range,
   and sends its representation from where its Content-Range says: up to the end it chooses for the
   caller's range, of the object the If-Range validator names for the code's own. What arrives may
   stop short anywhere.
   */
  predicate HonestReply(r: Reply, from: nat, validator: string, caller: CallerRange, objects: Objects) {
    && r.Reply?
    && (r.length > 0 ==> r.status == 206 || r.length == |r.whole|)
    && (200 <= r.status < 300 && r.status != 206 ==>
          r.body <= r.whole && (Validator(r) != "" ==> objects(Validator(r)) == r.whole))
    && (r.status == 206 ==>
          && (from > 0 || caller != NoRange)
          && r.contentRange.Some? && IsPart(r.body, r.whole, r.contentRange.value)
          && (from > 0 ==> r.whole == objects(validator))
          && (from == 0 && Validator(r) != "" ==> objects(Validator(r)) == r.whole)
          && (from == 0 && r.length > 0 ==> r.contentRange.value + r.length <= |r.whole| && |r.body| <= r.length))
  }

  /** A beginning of what is at this place of the representation. */
  predicate IsPart(part: seq<byte>, whole: seq<byte>, at: nat) {
    at <= |whole| && part <= whole[at..]
  }

  ghost predicate Honest(server: Server, caller: CallerRange, objects: Objects) {
    forall i, from, v :: server(i, from, v) == NetError || HonestReply(server(i, from, v), from, v, caller, objects)
  }

  /** Every full answer announces its length. */
  ghost predicate Announces(server: Server) {
    forall i, from, v :: var r := server(i, from, v);
      r.Reply? && 200 <= r.status < 300 && r.status != 206 ==> r.length == |r.whole|
  }

  // ----- what is staged -----

  /** Where in its representation the first staged byte of an attempt lies. */
  function Place(a: Attempt): int {
    if a.reply.Reply? && a.reply.status == 206 && a.reply.contentRange.Some?
    then a.reply.contentRange.value - |a.staged| else 0
  }

  /** The caller has asked for a part in a way the code does not see, and lets it resume. */
  predicate Overlooks(o: Options) {
    o.resume && o.callerRange.OtherCase?
  }

  /** A full answer that announces its length: the length the code waits for from then on. */
  predicate Announcing(a: Attempt) {
    a.reply.Reply? && a.reply.status != 206 && a.reply.length > 0
  }

  /** The bytes staged before this body, and the body, are a beginning of the representation the
      validator names; a length announced with it is the true one. */
  predicate AttemptOk(a: Attempt, objects: Objects) {
    && a.reply.Reply? && a.resumes <= MAX_RESUMES && Place(a) == 0
    && a.staged + a.reply.body <= a.reply.whole
    && (a.validator != "" ==> objects(a.validator) == a.reply.whole)
    && (a.canResume ==> a.validator != "")
    && (Announcing(a) ==> a.reply.length == |a.reply.whole|)
  }

  /** The length to reach is that of the representation (or the representation is empty). */
  predicate LengthOk(a: Attempt) {
    a.reply.Reply? && (a.reply.whole == [] || a.length == |a.reply.whole|)
  }

  lemma StartOk(server: Server, o: Options, objects: Objects)
    requires Honest(server, o.callerRange, objects) && o.callerRange.NoRange? && Start(server, o).Go?
    ensures AttemptOk(Start(server, o).a, objects)
    ensures Announces(server) ==> LengthOk(Start(server, o).a)
  {
    var r := server(0, 0, "");
    assert [] + r.body == r.body;
  }

  lemma Behind(staged: seq<byte>, body: seq<byte>, whole: seq<byte>)
    requires staged <= whole && body <= whole[|staged|..]
    ensures staged + body <= whole
  {
  }

  lemma ContinueOk(server: Server, o: Options, a: Attempt, objects: Objects)
    requires Honest(server, o.callerRange, objects) && o.callerRange.NoRange? && AttemptOk(a, objects)
    ensures Continue(server, o, a).Go? ==> AttemptOk(Continue(server, o, a).a, objects)
    ensures Continue(server, o, a).Go? && Announces(server) && LengthOk(a) ==> LengthOk(Continue(server, o, a).a)
  {
    var staged := a.staged + a.reply.body;
    var r := server(a.resumes + 1, |staged|, a.validator);
    if Continue(server, o, a).Go? {
      if r.status == 206 {
        Behind(staged, r.body, r.whole);
      } else {
        assert [] + r.body == r.body;
      }
    }
  }

  /** All states the loop passes through. */
  ghost predicate Reaches(server: Server, o: Options, s: Step, a: Attempt)
    requires s.Go? ==> s.a.reply.Reply?
    decreases s.Go?, if s.Go? && s.a.resumes <= MAX_RESUMES then MAX_RESUMES - s.a.resumes else 0
  {
    s.Go? && (s.a == a || (Continue(server, o, s.a).Go? && Reaches(server, o, Continue(server, o, s.a), a)))
  }

  lemma {:induction false} ReachedOk(server: Server, o: Options, s: Step, a: Attempt, objects: Objects)
    requires Honest(server, o.callerRange, objects) && o.callerRange.NoRange?
    requires s.Go? && AttemptOk(s.a, objects) && Reaches(server, o, s, a)
    ensures AttemptOk(a, objects)
    decreases if s.a.resumes <= MAX_RESUMES then MAX_RESUMES - s.a.resumes else 0
  {
    hide Honest, Continue, AttemptOk;
    if s.a != a {
      AttemptReply(s.a, objects);
      ContinueOk(server, o, s.a, objects);
      ReachedOk(server, o, Continue(server, o, s.a), a, objects);
    }
  }

  lemma AttemptReply(a: Attempt, objects: Objects)
    requires AttemptOk(a, objects)
    ensures a.reply.Reply? && a.resumes <= MAX_RESUMES
  {
  }

  /** At every moment of a download - n bytes into the body of any of its answers - the staged bytes are
      one part of the representation the answer is sent from: its beginning unless the caller asked for
      another part, and then the part from where the only answer says. */
  lemma StagedIsPart(server: Server, o: Options, a: Attempt, n: nat, objects: Objects)
    requires Honest(server, o.callerRange, objects) && !Overlooks(o)
    requires Reaches(server, o, Start(server, o), a) && a.reply.Reply? && n <= |a.reply.body|
    ensures 0 <= Place(a) && IsPart(a.staged + a.reply.body[..n], a.reply.whole, Place(a))
    ensures o.callerRange.NoRange? ==> Place(a) == 0
    ensures o.callerRange.NoRange? && a.validator != "" ==> a.staged + a.reply.body[..n] <= objects(a.validator)
    ensures !o.callerRange.NoRange? ==> a.staged == [] && a.reply == server(0, 0, "")
  {
    var all := a.staged + a.reply.body;
    assert a.staged + a.reply.body[..n] == all[..|a.staged| + n];
    if o.callerRange.NoRange? {
      StartOk(server, o, objects);
      ReachedOk(server, o, Start(server, o), a, objects);
      assert a.reply.whole[0..] == a.reply.whole;
    } else {
      OnlyOne(server, o, a);
      assert HonestReply(a.reply, 0, "", o.callerRange, objects);
      assert all == a.reply.body && a.reply.whole[0..] == a.reply.whole;
    }
  }

  /** A part the caller asks for is never resumed. */
  lemma OnlyOne(server: Server, o: Options, a: Attempt)
    requires !o.callerRange.NoRange? && !Overlooks(o) && Reaches(server, o, Start(server, o), a)
    ensures a == Start(server, o).a
  {
    assert !Start(server, o).a.canResume;
    assert Continue(server, o, Start(server, o).a).Done?;
  }

  // ----- what is promoted -----

  /** No answer from this step on announces a length for the whole. */
  ghost predicate NoneAnnounces(server: Server, o: Options, s: Step)
    requires s.Go? ==> s.a.reply.Reply?
    decreases s.Go?, if s.Go? && s.a.resumes <= MAX_RESUMES then MAX_RESUMES - s.a.resumes else 0
  {
    s.Go? ==> !Announcing(s.a) && (Continue(server, o, s.a).Go? ==> NoneAnnounces(server, o, Continue(server, o, s.a)))
  }

  /** What is promoted from this attempt on: the end of a body without a read error, and a beginning
      of its representation. */
  ghost predicate EndsWith(server: Server, o: Options, a: Attempt, last: Attempt, objects: Objects)
    requires a.reply.Reply?
  {
    && Reaches(server, o, Go(a), last) && AttemptOk(last, objects) && last.reply.clean
    && Finish(server, o, Go(a)) == Promote(last.staged + last.reply.body, last.resumes + 1)
    && (last.length > 0 ==> |last.staged + last.reply.body| == last.length)
  }

  /** The answer whose announced length ends the run: the last that announces one. */
  ghost predicate Awaits(server: Server, o: Options, a: Attempt, last: Attempt, g: Attempt)
    requires a.reply.Reply?
  {
    && Reaches(server, o, Go(a), g) && Announcing(g) && NoneAnnounces(server, o, Continue(server, o, g))
    && last.length == g.reply.length
  }

  lemma AwaitsStep(server: Server, o: Options, a: Attempt, last: Attempt, later: Attempt) returns (g: Attempt)
    requires a.reply.Reply? && a.resumes <= MAX_RESUMES && Continue(server, o, a).Go?
    requires var b := Continue(server, o, a).a;
             || Awaits(server, o, b, last, later)
             || (last.length == b.length && NoneAnnounces(server, o, Continue(server, o, b)))
    ensures || Awaits(server, o, a, last, g)
            || (last.length == a.length && NoneAnnounces(server, o, Continue(server, o, a)))
  {
    var b := Continue(server, o, a).a;
    if Awaits(server, o, b, last, later) {
      g := later;
    } else {
      g := b;
      assert Reaches(server, o, Go(b), b);
      assert Reaches(server, o, Go(a), b);
    }
  }

  lemma {:induction false} FinishIsPrefix(server: Server, o: Options, a: Attempt, objects: Objects)
    returns (last: Attempt, g: Attempt)
    requires Honest(server, o.callerRange, objects) && o.callerRange.NoRange?
    requires AttemptOk(a, objects) && Finish(server, o, Go(a)).Promote?
    ensures EndsWith(server, o, a, last, objects)
    ensures || Awaits(server, o, a, last, g)
            || (last.length == a.length && NoneAnnounces(server, o, Continue(server, o, a)))
    ensures Announces(server) && LengthOk(a) ==> LengthOk(last)
    decreases if a.resumes <= MAX_RESUMES then MAX_RESUMES - a.resumes else 0
  {
    hide Honest, Announces, LengthOk;
    var next := Continue(server, o, a);
    ContinueOk(server, o, a, objects);
    if next.Go? {
      last, g := FinishIsPrefix(server, o, next.a, objects);
      g := AwaitsStep(server, o, a, last, g);
    } else {
      last, g := a, a;
    }
  }

  lemma NotPartial(server: Server, o: Options, objects: Objects)
    requires Honest(server, o.callerRange, objects) && o.callerRange.NoRange?
    ensures server(0, 0, "").Reply? ==> server(0, 0, "").status != 206
  {
    assert server(0, 0, "").Reply? ==> HonestReply(server(0, 0, ""), 0, "", o.callerRange, objects);
  }

  /** The content promoted is a beginning of the representation of the last answer, up to a clean end.
      If any answer announced a length, the last that did decides: the content is complete exactly if
      the object that answer announced is as long as the one that arrived. If none did, whatever had
      arrived at the clean end is promoted. */
  lemma PromotedCompleteIff(server: Server, o: Options, objects: Objects) returns (last: Attempt, g: Attempt)
    requires Honest(server, o.callerRange, objects) && o.callerRange.NoRange?
    requires Finish(server, o, Start(server, o)).Promote?
    ensures EndsWith(server, o, Start(server, o).a, last, objects)
    ensures if last.length > 0
            then && Awaits(server, o, Start(server, o).a, last, g) && g.reply.length == |g.reply.whole|
                 && (Finish(server, o, Start(server, o)).content == last.reply.whole
                     <==> |g.reply.whole| == |last.reply.whole|)
            else NoneAnnounces(server, o, Start(server, o))
  {
    hide Honest, Announces, Continue;
    StartOk(server, o, objects);
    var a := Start(server, o).a;
    last, g := FinishIsPrefix(server, o, a, objects);
    if !Awaits(server, o, a, last, g) && last.length > 0 {
      g := a;
      assert server(0, 0, "").status != 206 by {
        NotPartial(server, o, objects);
      }
    }
    if last.length > 0 {
      ReachedOk(server, o, Start(server, o), g, objects);
    }
  }

  /** Whenever a download from an honest server that announces its lengths is promoted, the final file
      is one complete representation, after any drops, resumes and restarts. */
  lemma PromotedIsComplete(server: Server, o: Options, objects: Objects) returns (last: Attempt)
    requires Honest(server, o.callerRange, objects) && Announces(server) && o.callerRange.NoRange?
    requires Finish(server, o, Start(server, o)).Promote?
    ensures Reaches(server, o, Start(server, o), last) && last.reply.Reply?
    ensures Finish(server, o, Start(server, o)).content == last.reply.whole
    ensures last.validator != "" ==> Finish(server, o, Start(server, o)).content == objects(last.validator)
  {
    hide Honest, Announces, Continue;
    StartOk(server, o, objects);
    ghost var g;
    last, g := FinishIsPrefix(server, o, Start(server, o).a, objects);
  }

  /** What is promoted of a download whose caller asks for a part, and is not overlooked: the one answer,
      complete if it announced its length - the part from where it says, or the whole if the server
      paid no heed to the range. */
  lemma PromotedIsRequested(server: Server, o: Options, objects: Objects)
    requires Honest(server, o.callerRange, objects) && !o.callerRange.NoRange? && !Overlooks(o)
    requires Finish(server, o, Start(server, o)).Promote?
    ensures var r, out := server(0, 0, ""), Finish(server, o, Start(server, o));
            && r.Reply? && r.clean && out == Promote(r.body, 1)
            && (r.status == 206 ==>
                  && r.contentRange.Some? && IsPart(out.content, r.whole, r.contentRange.value)
                  && (r.length > 0 ==> out.content == r.whole[r.contentRange.value..][..r.length]))
            && (r.status != 206 ==> out.content <= r.whole && (r.length > 0 ==> out.content == r.whole))
  {
    var r := server(0, 0, "");
    assert r.Reply? ==> HonestReply(r, 0, "", o.callerRange, objects);
    assert r.Reply? ==> [] + r.body == r.body;
    OnlyOne(server, o, Start(server, o).a);
  }

  // ----- which options are safe -----

  /** If anything is promoted, it is one part of one of the representations that were sent. */
  ghost predicate IsOnePart(server: Server, o: Options) {
    Finish(server, o, Start(server, o)).Promote? ==>
      exists a: Attempt, at: nat ::
        && Reaches(server, o, Start(server, o), a) && a.reply.Reply?
        && IsPart(Finish(server, o, Start(server, o)).content, a.reply.whole, at)
  }

  /** If anything is promoted, it is the whole of one of the representations that were sent. */
  ghost predicate IsOneWhole(server: Server, o: Options) {
    Finish(server, o, Start(server, o)).Promote? ==>
      exists a: Attempt ::
        && Reaches(server, o, Start(server, o), a) && a.reply.Reply?
        && Finish(server, o, Start(server, o)).content == a.reply.whole
  }

  /** With these options a download promotes one part of one representation for every honest server and
      any cancellation, exactly if resuming is off or the caller's range is not in other letter case. */
  lemma OnePartIff(resume: bool, caller: CallerRange)
    ensures (forall server: Server, o: Options, objects: Objects ::
               o.resume == resume && o.callerRange == caller && Honest(server, caller, objects) ==>
                 IsOnePart(server, o))
       <==> !(resume && caller.OtherCase?)
  {
    if resume && caller.OtherCase? {
      OverlookedRange();
    } else {
      forall server: Server, o: Options, objects: Objects
        | o.resume == resume && o.callerRange == caller && Honest(server, caller, objects)
        ensures IsOnePart(server, o)
      {
        OnePart(server, o, objects);
      }
    }
  }

  lemma OnePart(server: Server, o: Options, objects: Objects)
    requires Honest(server, o.callerRange, objects) && !Overlooks(o)
    ensures IsOnePart(server, o)
  {
    hide Honest, Continue;
    if Finish(server, o, Start(server, o)).Promote? {
      ghost var last := Start(server, o).a;
      if o.callerRange.NoRange? {
        StartOk(server, o, objects);
        ghost var g;
        last, g := FinishIsPrefix(server, o, last, objects);
        assert last.reply.whole[0..] == last.reply.whole;
        assert IsPart(last.staged + last.reply.body, last.reply.whole, 0);
      } else {
        PromotedIsRequested(server, o, objects);
        assert last.reply.whole[0..] == last.reply.whole;
        assert IsPart(last.reply.body, last.reply.whole,
                      if last.reply.status == 206 then last.reply.contentRange.value else 0);
      }
      assert Reaches(server, o, Start(server, o), last);
    }
  }

  /** And it promotes one whole representation for every honest server that announces its lengths exactly
      if the caller sends no range of its own. */
  lemma OneWholeIff(resume: bool, caller: CallerRange)
    ensures (forall server: Server, o: Options, objects: Objects ::
               o.resume == resume && o.callerRange == caller && Honest(server, caller, objects) && Announces(server)
               ==> IsOneWhole(server, o))
       <==> caller.NoRange?
  {
    if caller.NoRange? {
      forall server: Server, o: Options, objects: Objects
        | o.resume == resume && o.callerRange == caller && Honest(server, caller, objects) && Announces(server)
        ensures IsOneWhole(server, o)
      {
        if Finish(server, o, Start(server, o)).Promote? {
          hide Finish, Start, Honest, Announces, Reaches;
          var last := PromotedIsComplete(server, o, objects);
        }
      }
    } else {
      OnlyAPart(resume, caller);
    }
  }

  /** Whatever the server answers, at most four requests are sent: the first and three resumes. */
  lemma {:induction false} RequestsAreBounded(server: Server, o: Options, s: Step)
    requires s.Go? ==> s.a.reply.Reply? && s.a.resumes <= MAX_RESUMES
    requires s.Done? ==> 1 <= s.o.requests <= MAX_RESUMES + 1
    ensures 1 <= Finish(server, o, s).requests <= MAX_RESUMES + 1
    decreases s.Go?, if s.Go? && s.a.resumes <= MAX_RESUMES then MAX_RESUMES - s.a.resumes else 0
  {
    if s.Go? {
      RequestsAreBounded(server, o, Continue(server, o, s.a));
    }
  }

  lemma AtMostFourRequests(server: Server, o: Options)
    ensures 1 <= Finish(server, o, Start(server, o)).requests <= 4
  {
    RequestsAreBounded(server, o, Start(server, o));
  }

  /** What the requests so far say: a resume was allowed each time, and not cancelled. */
  ghost predicate WasAllowed(o: Options, requests: nat) {
    (requests > 1 ==> o.resume && !o.callerRange.Spelt?) && forall k: nat :: k + 1 < requests ==> !o.cancelled(k)
  }

  lemma {:induction false} RequestsWereAllowed(server: Server, o: Options, s: Step)
    requires s.Go? ==> s.a.reply.Reply? && s.a.resumes <= MAX_RESUMES && WasAllowed(o, s.a.resumes + 1)
    requires s.Go? && s.a.canResume ==> o.resume && !o.callerRange.Spelt?
    requires s.Done? ==> WasAllowed(o, s.o.requests)
    ensures WasAllowed(o, Finish(server, o, s).requests)
    decreases s.Go?, if s.Go? && s.a.resumes <= MAX_RESUMES then MAX_RESUMES - s.a.resumes else 0
  {
    if s.Go? {
      RequestsWereAllowed(server, o, Continue(server, o, s.a));
    }
  }

  /** Whatever the server answers: once a download is cancelled no further request is sent, and none but the
      first where resuming is off or the caller asks for a range. */
  lemma CancelStopsRequests(server: Server, o: Options, k: nat)
    ensures o.cancelled(k) ==> Finish(server, o, Start(server, o)).requests <= k + 1
    ensures !o.resume || o.callerRange.Spelt? ==> Finish(server, o, Start(server, o)).requests == 1
  {
    hide Finish, Continue;
    RequestsWereAllowed(server, o, Start(server, o));
    AtMostFourRequests(server, o);
  }

  lemma NoneAfterCancel(server: Server, o: Options)
    ensures forall k: nat :: o.cancelled(k) ==> Finish(server, o, Start(server, o)).requests <= k + 1
  {
    hide Finish, Start;
    forall k: nat | o.cancelled(k) ensures Finish(server, o, Start(server, o)).requests <= k + 1 {
      CancelStopsRequests(server, o, k);
    }
  }

  // ----- a download that is resumed to its end -----

  /** The server sends one object under one validator: from the start with its length first, and then from
      where it is asked to go on. Any body may stop short. */
  ghost predicate GoesOn(server: Server, obj: seq<byte>, v: string) {
    && v != "" && obj != [] && server(0, 0, "").Reply?
    && (var first := server(0, 0, "");
        first.status == 200 && first.length == |obj| && Validator(first) == v && first.body <= obj)
    && forall i: nat, from: nat | i > 0 && from <= |obj| :: SendsRest(server(i, from, v), obj, from)
  }

  predicate SendsRest(r: Reply, obj: seq<byte>, from: nat)
    requires from <= |obj|
  {
    r.Reply? && r.status == 206 && r.contentRange == Some(from) && r.body <= obj[from..]
  }

  /** What has arrived with the k-th resume. */
  function Arrived(server: Server, v: string, k: nat): seq<byte> {
    var from := if k == 0 then [] else Arrived(server, v, k - 1);
    var r := ReplyTo(server, from, v, k);
    if r.Reply? then from + r.body else from
  }

  function ReplyTo(server: Server, from: seq<byte>, v: string, k: nat): Reply {
    if k == 0 then server(0, 0, "") else server(k, |from|, v)
  }

  /** All of the object has arrived, up to a clean end. */
  predicate CompleteAt(server: Server, obj: seq<byte>, v: string, k: nat) {
    var r := ReplyTo(server, if k == 0 then [] else Arrived(server, v, k - 1), v, k);
    Arrived(server, v, k) == obj && r.Reply? && r.clean
  }

  lemma {:induction false} ArrivedPrefix(server: Server, obj: seq<byte>, v: string, k: nat)
    requires GoesOn(server, obj, v)
    ensures Arrived(server, v, k) <= obj
    ensures ReplyTo(server, if k == 0 then [] else Arrived(server, v, k - 1), v, k).Reply?
  {
    if k == 0 {
      assert [] + server(0, 0, "").body == server(0, 0, "").body;
    } else {
      ArrivedPrefix(server, obj, v, k - 1);
      var from := Arrived(server, v, k - 1);
      assert SendsRest(server(k, |from|, v), obj, |from|);
      Behind(from, server(k, |from|, v).body, obj);
    }
  }

  lemma {:induction false} ResumedFrom(server: Server, o: Options, obj: seq<byte>, v: string, a: Attempt, k: nat)
    requires GoesOn(server, obj, v) && a.reply.Reply? && a.resumes <= k && a.resumes <= 3 && k <= 4
    requires var i := a.resumes;
             && a.staged == (if i == 0 then [] else Arrived(server, v, i - 1))
             && a.reply == ReplyTo(server, a.staged, v, i)
             && a.validator == v && a.canResume && a.length == |obj|
    requires forall j: nat :: j < k && j < 3 ==> !o.cancelled(j)
    requires forall j: nat :: j < k ==> !CompleteAt(server, obj, v, j)
    requires k <= 3 ==> CompleteAt(server, obj, v, k)
    ensures Finish(server, o, Go(a)) == if k <= 3 then Promote(obj, k + 1) else Fail(4)
    decreases 4 - a.resumes
  {
    hide GoesOn;
    var i := a.resumes;
    var staged := a.staged + a.reply.body;
    assert staged == Arrived(server, v, i);
    ArrivedPrefix(server, obj, v, i);
    assert |staged| == |obj| <==> staged == obj;
    assert i < k ==> !CompleteAt(server, obj, v, i);
    if i < k && i < 3 {
      ArrivedPrefix(server, obj, v, i + 1);
      RestIs(server, obj, v, i + 1);
      var b := Continue(server, o, a);
      assert b == Go(a.(reply := server(i + 1, |staged|, v), staged := staged, resumes := i + 1));
      ResumedFrom(server, o, obj, v, b.a, k);
    }
  }

  lemma RestIs(server: Server, obj: seq<byte>, v: string, i: nat)
    requires GoesOn(server, obj, v) && i > 0 && Arrived(server, v, i - 1) <= obj
    ensures SendsRest(server(i, |Arrived(server, v, i - 1)|, v), obj, |Arrived(server, v, i - 1)|)
  {
  }

  /** A download that may resume, and is not cancelled, from a server that goes on: the object is promoted exactly
      if all of it has arrived, up to a clean end, with the first answer or one of three resumes, and as
      soon as that is so; otherwise it fails after four requests. */
  lemma ResumedIsPromotedIff(server: Server, o: Options, obj: seq<byte>, v: string)
    requires GoesOn(server, obj, v) && o.resume && o.callerRange.NoRange? && forall j: nat :: !o.cancelled(j)
    ensures var out := Finish(server, o, Start(server, o));
            && (out.Promote? <==> exists k: nat :: k <= 3 && CompleteAt(server, obj, v, k))
            && (out.Promote? ==> out.content == obj && out.requests > 0 && CompleteAt(server, obj, v, out.requests - 1))
            && (out.Fail? ==> out.requests == 4)
  {
    hide Finish, Continue, CompleteAt;
    var k := if CompleteAt(server, obj, v, 0) then 0 else if CompleteAt(server, obj, v, 1) then 1
             else if CompleteAt(server, obj, v, 2) then 2 else if CompleteAt(server, obj, v, 3) then 3 else 4;
    ResumedFrom(server, o, obj, v, Start(server, o).a, k);
  }

  /** A body that ends cleanly is promoted at once if no length was announced or it is reached. */
  lemma CleanEndIsPromoted(server: Server, o: Options)
    requires var r := server(0, 0, "");
             && r.Reply? && 200 <= r.status < 300 && r.clean && (r.length <= 0 || r.length == |r.body|)
    ensures Finish(server, o, Start(server, o)) == Promote(server(0, 0, "").body, 1)
  {
    var r := server(0, 0, "");
    assert [] + r.body == r.body;
  }

  /** A restart that announces its length is like a fresh start: nothing staged, the new length and validator, and
      resumed again if it can be; only the resumes used up stay counted. */
  lemma RestartIsFresh(server: Server, o: Options, a: Attempt)
    requires a.reply.Reply? && Continue(server, o, a).Go? && !o.callerRange.Spelt?
    requires var r := server(a.resumes + 1, |a.staged + a.reply.body|, a.validator);
             r.Reply? && r.status == 200 && r.length > 0
    ensures var r := server(a.resumes + 1, |a.staged + a.reply.body|, a.validator);
            var only: Server := (i: nat, from: nat, v: string) => r;
            Continue(server, o, a) == Go(Start(only, o).a.(resumes := a.resumes + 1))
  {
  }

  /** A weak ETag is never used for If-Range: section 13.1.5 of RFC 9110 asks for a strong one. */
  lemma WeakTagsAreNotUsed(r: Reply)
    requires r.Reply? && |r.etag| >= 2 && r.etag[..2] == "W/"
    ensures Validator(r) == r.lastModified
    ensures r.lastModified == "" ==> forall server: Server, o: Options ::
              server(0, 0, "") == r ==> Finish(server, o, Start(server, o)).requests == 1
  {
    forall server: Server, o: Options | server(0, 0, "") == r && r.lastModified == ""
      ensures Finish(server, o, Start(server, o)).requests == 1
    {
      assert Start(server, o).Go? ==> !Start(server, o).a.canResume;
    }
  }

  // ----- where the conditions matter -----

  function Full(body: seq<byte>, clean: bool, whole: seq<byte>, length: int, etag: string): Reply {
    Reply(200, length, etag, "", None, body, clean, whole)
  }

  function Partial(body: seq<byte>, clean: bool, length: int): Reply {
    Reply(206, length, "v1", "", Some(1), body, clean, [1, 2, 3])
  }

  /** A restart that announces no length inherits the length of the object it replaces: a body that
      stops there is promoted though bytes of the new object are missing. */
  lemma UnannouncedRestart()
    ensures exists server: Server, o: Options, objects: Objects ::
              && Honest(server, o.callerRange, objects) && o.callerRange.NoRange?
              && Finish(server, o, Start(server, o)) == Promote([4, 5, 6], 2)
              && forall v :: objects(v) != [4, 5, 6]
  {
    var older, newer: seq<byte> := [1, 2, 3], [4, 5, 6, 7];
    var objects: Objects := (v: string) => if v == "v2" then newer else older;
    var server: Server := (i: nat, from: nat, v: string) =>
      if i == 0 then Full([1], false, older, 3, "v1") else Full([4, 5, 6], true, newer, -1, "v2");
    var o := Options(true, NoRange, (n: nat) => false);
    ReplyIsHonest(Full([1], false, older, 3, "v1"), objects);
    ReplyIsHonest(Full([4, 5, 6], true, newer, -1, "v2"), objects);
    assert Honest(server, o.callerRange, objects);
    RestartRun(server, o, older, newer);
    assert objects("v2") == newer && objects("v1") == older && |newer| == 4 && older[0] == 1;
  }

  lemma RestartRun(server: Server, o: Options, older: seq<byte>, newer: seq<byte>)
    requires server(0, 0, "") == Full([1], false, older, 3, "v1")
    requires server(1, 1, "v1") == Full([4, 5, 6], true, newer, -1, "v2")
    requires o.resume && o.callerRange.NoRange? && !o.cancelled(0)
    requires Validator(Full([1], false, older, 3, "v1")) == "v1"
    ensures Finish(server, o, Start(server, o)) == Promote([4, 5, 6], 2)
  {
    var a := Start(server, o).a;
    assert a.canResume;
    assert [] + [1] == [1];
    var b := Continue(server, o, a).a;
    assert b.length == 3 && b.staged == [];
    assert [] + [4, 5, 6] == [4, 5, 6];
    assert Continue(server, o, b) == Done(Promote([4, 5, 6], 2));
  }

  /** For every object there is a server that goes on, and a download that it breaks off once and completes. */
  lemma OneDrop(obj: seq<byte>)
    requires obj != []
    ensures exists server: Server ::
              && GoesOn(server, obj, "v1")
              && forall o: Options :: o.resume && o.callerRange.NoRange? && (forall j: nat :: !o.cancelled(j)) ==>
                   Finish(server, o, Start(server, o)) == Promote(obj, 2)
  {
    var server: Server := (i: nat, from: nat, u: string) =>
      if i == 0 then Full(obj[..1], false, obj, |obj|, "v1")
      else if from <= |obj| then Reply(206, -1, "v1", "", Some(from), obj[from..], true, obj) else NetError;
    assert "W/"[0] != "v1"[0];
    assert Validator(server(0, 0, "")) == "v1";
    assert GoesOn(server, obj, "v1");
    assert [] + obj[..1] == obj[..1] && obj[..1] + obj[1..] == obj;
    assert Arrived(server, "v1", 0) == obj[..1] && !CompleteAt(server, obj, "v1", 0);
    assert ReplyTo(server, obj[..1], "v1", 1) == server(1, 1, "v1");
    assert CompleteAt(server, obj, "v1", 1);
    forall o: Options | o.resume && o.callerRange.NoRange? && (forall j: nat :: !o.cancelled(j))
      ensures Finish(server, o, Start(server, o)) == Promote(obj, 2)
    {
      ResumedFrom(server, o, obj, "v1", Start(server, o).a, 1);
    }
  }

  /** A caller that asks for the second byte of three is given it, and it is promoted. */
  lemma OnlyAPart(resume: bool, caller: CallerRange)
    requires !caller.NoRange?
    ensures exists server: Server, o: Options, objects: Objects ::
              && o.resume == resume && o.callerRange == caller && Honest(server, caller, objects) && Announces(server)
              && !IsOneWhole(server, o)
  {
    var server: Server := (i: nat, from: nat, v: string) => Partial([2], true, 1);
    var objects: Objects := (v: string) => [1, 2, 3];
    var o := Options(resume, caller, (n: nat) => false);
    PartialIsHonest(Partial([2], true, 1), caller, objects);
    assert Honest(server, caller, objects);
    assert [] + [2] == [2];
    assert Continue(server, o, Start(server, o).a) == Done(Promote([2], 1));
    assert !IsOneWhole(server, o);
  }

  /** A range header the caller spells in other letter case is sent, but the code does not see it: the
      first answer is then partial, and a resume puts bytes of another place behind it. */
  lemma OverlookedRange()
    ensures exists server: Server, o: Options, objects: Objects ::
              && o.resume && o.callerRange.OtherCase? && Honest(server, OtherCase, objects)
              && Finish(server, o, Start(server, o)) == Promote([2, 2], 2)
              && !IsOnePart(server, o)
  {
    var whole: seq<byte> := [1, 2, 3];
    var objects: Objects := (v: string) => whole;
    var server: Server := (i: nat, from: nat, v: string) =>
      if i == 0 || from == 1 then Partial([2], i > 0, 2) else NetError;
    var o := Options(true, OtherCase, (n: nat) => false);
    PartialIsHonest(Partial([2], false, 2), OtherCase, objects);
    PartialIsHonest(Partial([2], true, 2), OtherCase, objects);
    assert Honest(server, o.callerRange, objects);
    OverlookedRun(server, o);
    assert forall i, from, v :: server(i, from, v).Reply? ==> server(i, from, v).whole == whole;
    forall a: Attempt, at: nat | Reaches(server, o, Start(server, o), a) && a.reply.Reply?
      ensures !IsPart([2, 2], a.reply.whole, at)
    {
      WholeSent(server, o, Start(server, o), a, whole);
      if at < 2 {
        assert whole[at..][..2] == [whole[at], whole[at + 1]];
      }
    }
  }

  lemma OverlookedRun(server: Server, o: Options)
    requires server(0, 0, "") == Partial([2], false, 2) && server(1, 1, "v1") == Partial([2], true, 2)
    requires o.resume && o.callerRange.OtherCase? && !o.cancelled(0)
    ensures Finish(server, o, Start(server, o)) == Promote([2, 2], 2)
  {
    assert "W/"[0] != "v1"[0];
    var a := Start(server, o).a;
    assert a.canResume;
    assert [] + [2] == [2];
    var b := Continue(server, o, a).a;
    assert b.length == 2 && b.staged == [2] && b.reply == Partial([2], true, 2);
    assert [2] + [2] == [2, 2];
    assert Continue(server, o, b) == Done(Promote([2, 2], 2));
  }

  lemma {:induction false} WholeSent(server: Server, o: Options, s: Step, a: Attempt, whole: seq<byte>)
    requires forall i, from, v :: server(i, from, v).Reply? ==> server(i, from, v).whole == whole
    requires s.Go? && s.a.reply.Reply? && s.a.reply.whole == whole && Reaches(server, o, s, a)
    ensures a.reply.Reply? && a.reply.whole == whole
    decreases if s.a.resumes <= MAX_RESUMES then MAX_RESUMES - s.a.resumes else 0
  {
    if s.a != a {
      WholeSent(server, o, Continue(server, o, s.a), a, whole);
    }
  }

  lemma PartialIsHonest(r: Reply, caller: CallerRange, objects: Objects)
    requires (r == Partial([2], true, 1) || r == Partial([2], true, 2) || r == Partial([2], false, 2))
             && caller != NoRange
    requires forall v :: objects(v) == [1, 2, 3]
    ensures forall from, v :: HonestReply(r, from, v, caller, objects)
  {
    assert r.whole[1..] == [2, 3] && [2] <= r.whole[1..];
  }

  lemma ReplyIsHonest(r: Reply, objects: Objects)
    requires r.Reply? && r.status == 200 && r.body <= r.whole && r.etag != "" && r.etag[0] == 'v'
    requires objects(r.etag) == r.whole && (r.length > 0 ==> r.length == |r.whole|)
    ensures Validator(r) == r.etag
    ensures forall from, v :: HonestReply(r, from, v, NoRange, objects)
  {
    assert "W/"[0] != r.etag[0];
  }
}
