/**
 What each section of the signed session brings about, where the runs say what it leaves alone: a
 revoked session goes, a session that needs verification is blocked, a challenge is on offer to whoever
 needs one, a grant puts the session in place, and a fetch goes on with a better one.
 */
module SignedSessionEffects {
  import opened Bytes
  import opened SignedSession
  import opened SignedSessionRuns

  // ----- verification -----

  /** A challenge of this URL is on offer, and the extension waits for it. */
  predicate Offered(w: World, ext: string, url: string) {
    && w.coord.authUrl == url && w.coord.createdAt.Some? && ext in Ids(w.coord)
    && ext in w.pendingAuth && w.pendingAuth[ext].authUrl == url
    && w.pendingAuth[ext].callbackUrl == w.coord.callbackUrl
  }

  predicate NoChallenge(w: World) {
    w.coord.authUrl == "" && w.coord.callbackUrl == "" && w.coord.createdAt.None? && w.coord.pendingIds.None?
  }

  /** The extension has a pending challenge of its own that can be taken over. */
  predicate HasPending(w: World, ext: string) {
    && ext in w.pendingAuth && w.now - w.pendingAuth[ext].createdAt < PENDING_TTL
    && !Blank(w.pendingAuth[ext].authUrl)
  }

  predicate NoUrl(boot: Boot)
    requires boot.Boot?
  {
    boot.authUrl == "" && boot.challengeUrl == "" && boot.builtUrl == ""
  }

  /** The URL to open, the challenge's own, or the one built from its id: the first the answer has. */
  predicate IsFirstUrl(boot: Boot, url: string)
    requires boot.Boot?
  {
    && url in {boot.authUrl, boot.challengeUrl, boot.builtUrl} && url != ""
    && (boot.authUrl != "" ==> url == boot.authUrl)
    && (boot.authUrl == "" && boot.challengeUrl != "" ==> url == boot.challengeUrl)
  }

  /** Pending challenges that go with one that is on offer no more. */
  predicate Dropped(w: World, ext: string) {
    w.coord.authUrl != "" && !Active(w.coord, w.now) && ext in Ids(w.coord)
  }

  /** What starting a verification ends with. A URL means a challenge is on offer that the extension waits for;
      silence, that the session a bootstrap brought is on disk, not blocked, with no challenge left; an error,
      that the bootstrap brought neither. One bootstrap is sent exactly if there is neither an active
      challenge nor a pending one of the extension. */
  lemma VerificationEnds(w: World, ext: string, callback: string, boot: Boot, later: int)
    ensures var (u, v) := StartVerification(w, ext, callback, boot, later);
            && (v.Url? ==> Offered(u, ext, v.url) && u.disk == w.disk && u.coord.blocked == w.coord.blocked)
            && (v.Url? && u.bootstraps > w.bootstraps ==> u.coord.callbackUrl == callback)
            && (v.Url? && u.bootstraps == w.bootstraps ==>
                  u.coord.callbackUrl == if Active(w.coord, w.now) then w.coord.callbackUrl
                                         else w.pendingAuth[ext].callbackUrl)
            && (v.Silent? ==> BringsSession(boot) && u.disk == Brought(boot) && u.coord.blocked == "" && NoChallenge(u))
            && (v.Error? ==> u.disk == w.disk && u.coord.blocked == w.coord.blocked && ext !in u.pendingAuth)
            && (v.Error? ==> boot.Failed? || (!BringsSession(boot) && NoUrl(boot)))
            && (u.bootstraps == w.bootstraps <==> Active(w.coord, w.now) || (HasPending(w, ext) && !Dropped(w, ext)))
            && w.bootstraps <= u.bootstraps <= w.bootstraps + 1 && (v.Url? || u.bootstraps > w.bootstraps)
            && (v.Url? || v.Silent? || v.Error?)
            && (u.bootstraps > w.bootstraps && BringsSession(boot) ==> v.Silent?)
            && (u.bootstraps > w.bootstraps && boot.Boot? && !BringsSession(boot) && !NoUrl(boot) ==>
                  v.Url? && IsFirstUrl(boot, v.url) && u.coord.createdAt == Some(later))
  {
  }

  /** A challenge on offer is shared, under its own URL and time, for five minutes; an older one is replaced: a
      bootstrap is sent unless the extension has another pending challenge that is younger. */
  lemma SharedForFiveMinutes(w: World, ext: string, callback: string, boot: Boot, later: int)
    requires !Blank(w.coord.authUrl) && w.coord.createdAt.Some?
    ensures var (u, v) := StartVerification(w, ext, callback, boot, later);
            var age := w.now - w.coord.createdAt.value;
            && (age < 300 ==> v == Url(w.coord.authUrl) && SameChallenge(w.coord, u.coord)
                              && Ids(u.coord) == Ids(w.coord) + {ext} && u.bootstraps == w.bootstraps)
            && (age >= 300
                && (ext in w.pendingAuth ==> ext in Ids(w.coord) || w.now - w.pendingAuth[ext].createdAt >= 300)
                ==> u.bootstraps == w.bootstraps + 1)
  {
    assert w.coord.authUrl != "";
  }

  /** A preflight leaves a session that can sign, or a challenge on offer, or has sent a bootstrap in vain. */
  lemma PreflightPrepares(w: World, ext: string, e: Env)
    ensures var u := Preflight(w, ext, e);
            || (Usable(u.disk, u.now) && !IsBlocked(u.coord, u.disk) && u == w)
            || Offered(u, ext, u.coord.authUrl)
            || Replaced(u, e.boot)
            || (u.bootstraps == w.bootstraps + 1 && !BringsSession(e.boot))
  {
    VerificationEnds(w, ext, e.callback, e.boot, e.later);
  }

  // ----- sessions go -----

  /** SESSION_INVALID for the session on disk removes it: what is there afterwards is no session or the one
      a bootstrap brought, and it is not blocked. */
  lemma InvalidSessionGoes(w: World, c: Call, r: Response, e: Env)
    requires r.Response? && r.status == 401 && r.contract.origin == "gateway"
    requires r.contract.code == "SESSION_INVALID" && r.contract.action == "bootstrap_session"
    requires SameSession(w.disk, c.record)
    ensures var u := Handle(w, c, r, e).0;
            (u.disk == NO_SESSION && u.coord.blocked == "") || Replaced(u, e.boot)
  {
    hide StartVerification;
    VerificationLeaves(Punish(w, c.record, BootstrapSession), c.ext, e);
  }

  /** VERIFY_REQUIRED for the session on disk blocks it, unless a bootstrap brings another session. */
  lemma VerifyBlocksSigner(w: World, c: Call, r: Response, e: Env)
    requires r.Response? && r.status == 428 && r.contract.origin == "gateway"
    requires r.contract.code == "VERIFY_REQUIRED" && r.contract.action == "verify"
    requires SameSession(w.disk, c.record)
    ensures var u := Handle(w, c, r, e).0;
            || (u.disk == w.disk && u.coord.blocked == Generation(c.record))
            || Replaced(u, e.boot)
  {
    hide StartVerification;
    VerificationLeaves(Punish(w, c.record, Verify), c.ext, e);
  }

  /** SessionClear leaves no session, no block, no challenge, and nothing pending for the extension or any
      that waited for the challenge; the next fetch, of whatever extension, has nothing to sign with. */
  lemma ClearLeavesNothing(w: World, ext: string)
    ensures var u := ClearSession(w, ext);
            && u.disk == NO_SESSION && u.coord.blocked == "" && NoChallenge(u)
            && (forall x <- u.pendingAuth :: x != ext && x !in Ids(w.coord) && x in w.pendingAuth
                                             && u.pendingAuth[x] == w.pendingAuth[x])
            && (forall x <- w.pendingAuth :: x != ext && x !in Ids(w.coord) ==> x in u.pendingAuth)
    ensures forall e: Env, other: string :: Enter(ClearSession(w, ext), other, e).1.None?
  {
  }

  // ----- grants -----

  /** A grant succeeds exactly if it repeats the last completed one over a usable session or the server grants a
      session; then the session granted is on disk, or the one that was there stays, and block, challenge
      and what waits for it are gone. A failed one changes nothing but the time. */
  lemma GrantTakesEffect(w: World, hash: string, answers: seq<Exchanged>, later: int)
    ensures var (u, ok) := Exchange(w, hash, answers, later);
            var repeat := w.coord.completedGrant == hash && Usable(w.disk, w.now);
            var a := LastAnswer(answers, 1).0;
            && (ok <==> repeat || (a.Granted? && a.id != "" && a.secret != "" && !a.expires.Absent?))
            && (ok ==> u.disk == if repeat then w.disk else Record(a.id, a.secret, a.expires))
            && (ok ==> u.coord.completedGrant == hash && u.coord.blocked == "" && NoChallenge(u))
            && (ok ==> forall x <- w.pendingAuth :: x in u.pendingAuth <==> x !in Ids(w.coord))
            && (!ok ==> u == w.(now := later, exchanges := u.exchanges))
            && (repeat ==> u.exchanges == w.exchanges)
  {
    hide LastAnswer, Usable;
  }

  /** The exchange ends with the first answer that is not a rate limit, or with the third. */
  lemma LastAnswerIs(answers: seq<Exchanged>)
    ensures |answers| >= 1 && !answers[0].Limited? ==> LastAnswer(answers, 1) == (answers[0], 1)
    ensures |answers| >= 2 && answers[0].Limited? && !answers[1].Limited? ==> LastAnswer(answers, 1) == (answers[1], 2)
    ensures |answers| >= 3 && answers[0].Limited? && answers[1].Limited? ==> LastAnswer(answers, 1) == (answers[2], 3)
  {
    assert LastAnswer(answers, 3).1 == 3;
  }

  // ----- fetches -----

  predicate HasExpired(w: World) {
    w.disk.id != "" && w.disk.secret != "" && w.disk.expires.Until? && w.now > w.disk.expires.time
  }

  /** The extension refreshes, and the session expires within the hour. */
  predicate IsDue(w: World, e: Env) {
    e.refreshes && w.disk.expires.Until? && w.disk.expires.time <= w.now + 3600
  }

  /** Before a request is signed an expired session is removed; one that is due is refreshed, each field the
      server leaves out kept; any other is kept as it is. */
  lemma SessionEnsured(w: World, e: Env)
    ensures var (u, ready) := EnsureSession(w, e.refreshes, e.refresh, e.later);
            && (ready <==> w.disk.id != "" && w.disk.secret != "" && !HasExpired(w))
            && (HasExpired(w) ==> u == w.(disk := NO_SESSION))
            && (!HasExpired(w) && !(ready && IsDue(w, e)) ==> u == w)
            && (ready && IsDue(w, e) ==>
                  && u == w.(disk := u.disk, now := e.later)
                  && (e.refresh.NoRefresh? ==> u.disk == w.disk)
                  && (e.refresh.Refreshed? ==>
                        && u.disk.id == (if e.refresh.id == "" then w.disk.id else e.refresh.id)
                        && u.disk.secret == (if e.refresh.secret == "" then w.disk.secret else e.refresh.secret)
                        && u.disk.expires == if e.refresh.expires.Absent? then w.disk.expires else e.refresh.expires))
  {
  }

  /** A session that is usable, not blocked and not due for a refresh signs at once, and nothing changes. */
  lemma GoodSessionSigns(w: World, ext: string, e: Env)
    requires Usable(w.disk, w.now) && !IsBlocked(w.coord, w.disk) && !RefreshDue(w, e.refreshes)
    ensures Enter(w, ext, e) == (w, Some(w.disk))
  {
    BlankIsEmpty(w.disk);
  }

  /** A fetch that gets no session to sign with has started a verification: a challenge is on offer, or a
      bootstrap was sent, in vain or with a session that is no good. */
  lemma RefusedIsVerified(w: World, ext: string, e: Env)
    requires Enter(w, ext, e).1.None?
    ensures var u := Enter(w, ext, e).0;
            Offered(u, ext, u.coord.authUrl) || u.bootstraps == w.bootstraps + 1
  {
    hide StartVerification;
    var v := EnsureSession(w, e.refreshes, e.refresh, e.later).0;
    VerificationEnds(v, ext, e.callback, e.boot, e.later);
  }

  /** A session other than the signer's is on disk, and usable. */
  predicate IsStale(w: World, c: Call) {
    Usable(w.disk, w.now) && !SameSession(w.disk, c.record)
  }

  /** Which answers are followed by another request, and who signs it: a provider's outage, up to twice, by the
      same session; a rejected signature, once, by the other session on disk; the gateway's word, once, by the
      other session on disk or by one that a bootstrap has just brought. */
  lemma RetriedIff(w: World, c: Call, r: Response, e: Env)
    requires r.Response?
    ensures var (u, next) := Handle(w, c, r, e);
            var outage := r.status == 503 && r.contract.origin == "provider"
                          && r.contract.code == "PROVIDER_UNAVAILABLE" && r.contract.retryable
                          && r.contract.retryMode == "same_operation";
            var rejected := r.status == 403 && r.contract.origin == "gateway"
                            && r.contract.code == "REQUEST_AUTH_INVALID" && r.contract.action == "";
            && (outage ==> (next.Again? <==> c.provider < 2))
            && (rejected ==> (next.Again? <==> !c.auth && IsStale(w, c)))
            && (IsGatewayWord(r) && IsStale(w, c) ==> (next.Again? <==> c.session < 1))
            && (next.Again? ==> outage || rejected || IsGatewayWord(r))
            && (next.Again? ==> next.c.record == if outage then c.record else u.disk)
            && (next.Again? ==> next.c.ext == c.ext && next.c.sent == c.sent + 1)
  {
    hide StartVerification;
  }

  /** A session is its id and its secret: one whose secret was rotated is another session, so answers to requests
      signed with the old secret are stale, and a block of the old generation does not block it. */
  lemma RotatedIsAnother(w: World, c: Call, r: Response, e: Env)
    requires Usable(w.disk, w.now) && c.record.id == w.disk.id && c.record.secret != w.disk.secret
    ensures Handle(w, c, r, e).0 == w
    ensures c.record.secret != "" && w.coord.blocked == Generation(c.record) ==> !IsBlocked(w.coord, w.disk)
  {
    var mine, theirs := w.disk.id + "\n" + w.disk.secret, c.record.id + "\n" + c.record.secret;
    assert mine[|w.disk.id| + 1..] == w.disk.secret && theirs[|w.disk.id| + 1..] == c.record.secret;
  }

  /** A fetch whose session is revoked goes on by itself when the bootstrap brings another session. */
  lemma RevokedFetchGoesOn(w: World, c: Call, r: Response, e: Env)
    requires IsGatewayWord(r) && SameSession(w.disk, c.record) && c.session < 1
    requires !Active(w.coord, w.now) && c.ext !in w.pendingAuth && BringsSession(e.boot)
    requires Usable(Brought(e.boot), e.later) && !SameSession(Brought(e.boot), c.record)
    ensures var (u, next) := Handle(w, c, r, e);
            next.Again? && next.c.record == Brought(e.boot) == u.disk && !IsBlocked(u.coord, u.disk)
  {
    BlankIsEmpty(Brought(e.boot));
  }

  /** A blocked fetch goes on when the bootstrap brings a usable session. */
  lemma BlockedFetchGoesOn(w: World, ext: string, e: Env)
    requires Usable(w.disk, w.now) && IsBlocked(w.coord, w.disk) && !RefreshDue(w, e.refreshes)
    requires !Active(w.coord, w.now) && ext !in w.pendingAuth
    requires BringsSession(e.boot) && Usable(Brought(e.boot), e.later)
    ensures Enter(w, ext, e).1 == Some(Brought(e.boot)) == Some(Enter(w, ext, e).0.disk)
  {
    BlankIsEmpty(w.disk);
  }

  /** A session is no good from the second it expires, nor one whose id or secret is only white space. */
  lemma UsableIff(r: Record, now: int)
    ensures Usable(r, now)
       <==> && (exists c <- r.id :: c !in " \t\n\r") && (exists c <- r.secret :: c !in " \t\n\r")
            && !(r.expires.Until? && r.expires.time <= now)
  {
  }

  /** The fetch loop goes on exactly as long as the answers are retried: it returns on the first answer that is not,
      has had one answer for each of its requests, and leaves the state as that answer made it. */
  lemma {:induction false} LoopEndsOnReturn(w: World, c: Call, k: nat, x: Surroundings)
    returns (j: nat, v: World, last: Call)
    requires CallOk(c)
    ensures var (u, sent) := FetchLoop(w, c, k, x);
            && Handle(x.others(j, v), last, x.answers(j), x.envs(j)) == (u, Return)
            && last.sent == sent == c.sent + (j - k) && last.ext == c.ext
    decreases MAX_REQUESTS - c.sent
  {
    BudgetsKept(x.others(k, w), c, x.answers(k), x.envs(k));
    var (u, next) := Handle(x.others(k, w), c, x.answers(k), x.envs(k));
    if next.Return? {
      j, v, last := k, w, c;
    } else {
      AgainCounts(x.others(k, w), c, x.answers(k), x.envs(k));
      j, v, last := LoopEndsOnReturn(u, next.c, k + 1, x);
    }
  }

  lemma AgainCounts(w: World, c: Call, r: Response, e: Env)
    ensures var next := Handle(w, c, r, e).1;
            next.Again? ==> next.c.sent == c.sent + 1 && next.c.ext == c.ext
  {
    hide StartVerification;
  }

  /** Whatever the gateway says of another session than the one on disk, that one is neither removed nor blocked,
      be it usable or not; only a bootstrap can replace it. */
  lemma OthersAreNotPunished(w: World, c: Call, r: Response, e: Env)
    requires !SameSession(w.disk, c.record)
    ensures var u := Handle(w, c, r, e).0;
            || (u.disk == w.disk && u.coord.blocked == w.coord.blocked)
            || Replaced(u, e.boot)
  {
    hide StartVerification;
    VerificationLeaves(w, c.ext, e);
  }
}
