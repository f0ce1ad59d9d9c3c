/**
 The shared signed session: one persisted record and one coordinator for every runtime of a
 scope. The functions say what each section of code under the coordinator's mutex does to
 that state, given what the server answers; the class has the same sections on mutable fields.

 A generation is a SHA-256 sum over session id and secret; it is the text that is hashed here.
 */
module SignedSession {
  import opened Bytes

  const PENDING_TTL := 300
  const REFRESH_SKEW := 3600
  const EXCHANGE_ATTEMPTS := 3
  const MAX_SESSION_RETRIES := 1
  const MAX_PROVIDER_RETRIES := 2

  /** An expiry text: none, one that is no time, or a time in seconds. */
  datatype Expiry = Absent | Unreadable | Until(time: int)

  datatype Record = Record(id: string, secret: string, expires: Expiry)

  const NO_SESSION := Record("", "", Absent)

  /** Nothing but white space. */
  predicate Blank(s: string) {
    forall c <- s :: c in " \t\n\r"
  }

  predicate Usable(r: Record, now: int) {
    !Blank(r.id) && !Blank(r.secret) && (r.expires.Until? ==> now < r.expires.time)
  }

  predicate SameSession(a: Record, b: Record) {
    a.id != "" && a.id == b.id && a.secret == b.secret
  }

  function Generation(r: Record): string {
    if r.id == "" || r.secret == "" then "" else r.id + "\n" + r.secret
  }

  datatype PendingAuth = PendingAuth(authUrl: string, callbackUrl: string, createdAt: int)

  /** The coordinator's fields; no createdAt is the zero time, no pendingIds the nil map. */
  datatype Coord = Coord(
    authUrl: string, callbackUrl: string, createdAt: Option<int>, pendingIds: Option<set<string>>,
    completedGrant: string, blocked: string)

  const NEW_COORD := Coord("", "", None, None, "", "")

  /** Clock, record on disk, coordinator, pending challenges by extension; and, as history, how many
      bootstraps and grant exchanges were sent. */
  datatype World = World(
    now: int, disk: Record, coord: Coord, pendingAuth: map<string, PendingAuth>, bootstraps: nat, exchanges: nat)

  predicate IsBlocked(c: Coord, r: Record) {
    Generation(r) != "" && Generation(r) == c.blocked
  }

  predicate Active(c: Coord, now: int) {
    !Blank(c.authUrl) && c.createdAt.Some? && now - c.createdAt.value < PENDING_TTL
  }

  // ----- challenges -----

  function Ids(c: Coord): set<string> {
    if c.pendingIds.Some? then c.pendingIds.value else {}
  }

  function ClearChallenge(w: World): World {
    w.(pendingAuth := w.pendingAuth - Ids(w.coord),
       coord := w.coord.(authUrl := "", callbackUrl := "", createdAt := None, pendingIds := None))
  }

  function Remember(w: World, ext: string, authUrl: string, callbackUrl: string): World {
    w.(coord := w.coord.(authUrl := authUrl, callbackUrl := callbackUrl, createdAt := Some(w.now),
                         pendingIds := Some(Ids(w.coord) + {ext})))
  }

  /** What a bootstrap request brings back. An empty text is a missing field; builtUrl is the URL made
      from a challenge id. */
  datatype Boot = Failed | Boot(
    id: string, secret: string, expires: Expiry, authUrl: string, challengeUrl: string, builtUrl: string)

  predicate IsSession(id: string, secret: string, expires: Expiry) {
    id != "" && secret != "" && !expires.Absent?
  }

  function ChallengeOf(b: Boot): string
    requires b.Boot?
  {
    if b.authUrl != "" then b.authUrl else if b.challengeUrl != "" then b.challengeUrl else b.builtUrl
  }

  datatype Verdict = Url(url: string) | Error | Silent

  /** startSignedSessionVerificationLocked: share the active challenge, take over a pending one, or
      send a bootstrap, whose answer arrives at `later`. */
  function StartVerification(w: World, ext: string, callback: string, boot: Boot, later: int): (World, Verdict) {
    if Active(w.coord, w.now) then
      var p := PendingAuth(w.coord.authUrl, w.coord.callbackUrl, w.coord.createdAt.value);
      (w.(pendingAuth := w.pendingAuth[ext := p],
          coord := w.coord.(pendingIds := Some(Ids(w.coord) + {ext}))),
       Url(w.coord.authUrl))
    else
      var v := if w.coord.authUrl != "" then ClearChallenge(w) else w;
      if && ext in v.pendingAuth && v.now - v.pendingAuth[ext].createdAt < PENDING_TTL
         && !Blank(v.pendingAuth[ext].authUrl)
      then
        (Remember(v, ext, v.pendingAuth[ext].authUrl, v.pendingAuth[ext].callbackUrl), Url(v.pendingAuth[ext].authUrl))
      else Bootstrap(v.(pendingAuth := v.pendingAuth - {ext}), ext, callback, boot, later)
  }

  function Bootstrap(w: World, ext: string, callback: string, boot: Boot, later: int): (World, Verdict) {
    var s := w.(bootstraps := w.bootstraps + 1, now := later);
    if boot.Failed? then (s, Error)
    else if IsSession(boot.id, boot.secret, boot.expires) then
      var n := s.(disk := Record(boot.id, boot.secret, boot.expires), coord := s.coord.(blocked := ""));
      (ClearChallenge(n), Silent)
    else if ChallengeOf(boot) == "" then (s, Error)
    else
      var n := s.(pendingAuth := s.pendingAuth[ext := PendingAuth(ChallengeOf(boot), callback, later)]);
      (Remember(n, ext, ChallengeOf(boot), callback), Url(ChallengeOf(boot)))
  }

  // ----- grants -----

  datatype Exchanged = NetFail | Limited | Refused | Granted(id: string, secret: string, expires: Expiry)

  /** The answer the exchange ends with, and how many requests it sent: a rate-limited attempt is
      repeated, up to three in all. */
  function LastAnswer(answers: seq<Exchanged>, attempt: nat): (Exchanged, nat)
    requires 1 <= attempt <= EXCHANGE_ATTEMPTS
    decreases EXCHANGE_ATTEMPTS - attempt
  {
    var a := if attempt <= |answers| then answers[attempt - 1] else NetFail;
    if a.Limited? && attempt < EXCHANGE_ATTEMPTS then LastAnswer(answers, attempt + 1) else (a, attempt)
  }

  /** exchangeSignedSessionGrantLocked. */
  function Exchange(w: World, grantHash: string, answers: seq<Exchanged>, later: int): (World, bool) {
    if w.coord.completedGrant == grantHash && Usable(w.disk, w.now) then
      (ClearChallenge(w.(coord := w.coord.(blocked := ""))), true)
    else
      var (a, sent) := LastAnswer(answers, 1);
      var s := w.(exchanges := w.exchanges + sent, now := later);
      if !a.Granted? || !IsSession(a.id, a.secret, a.expires) then (s, false)
      else
        var n := s.(disk := Record(a.id, a.secret, a.expires),
                    coord := s.coord.(completedGrant := grantHash, blocked := ""));
        (ClearChallenge(n), true)
  }

  /** signedSessionClear. */
  function ClearSession(w: World, ext: string): World {
    var c := ClearChallenge(w.(disk := NO_SESSION, coord := w.coord.(blocked := "")));
    c.(pendingAuth := c.pendingAuth - {ext})
  }

  // ----- before a request is signed -----

  /** The answer to a refresh request; empty texts and no expiry are missing fields. */
  datatype Refresh = NoRefresh | Refreshed(id: string, secret: string, expires: Expiry)

  function Merged(r: Record, f: Refresh): Record
    requires f.Refreshed?
  {
    Record(if f.id != "" then f.id else r.id, if f.secret != "" then f.secret else r.secret,
           if !f.expires.Absent? then f.expires else r.expires)
  }

  predicate RefreshDue(w: World, refreshes: bool) {
    refreshes && w.disk.expires.Until? && w.disk.expires.time - w.now <= REFRESH_SKEW
  }

  /** ensureSignedSession: an expired session is removed, one about to expire is refreshed. */
  function EnsureSession(w: World, refreshes: bool, f: Refresh, later: int): (World, bool) {
    if w.disk.id == "" || w.disk.secret == "" then (w, false)
    else if w.disk.expires.Until? && w.now > w.disk.expires.time then (w.(disk := NO_SESSION), false)
    else if RefreshDue(w, refreshes) then
      (w.(disk := if f.Refreshed? then Merged(w.disk, f) else w.disk, now := later), true)
    else (w, true)
  }

  /** What the environment decides while a section runs: the server's answers and the time they take. */
  datatype Env = Env(refreshes: bool, refresh: Refresh, boot: Boot, callback: string, later: int)

  /** The entry of signedSessionFetch, up to the release of the lock: the record to sign with, if any. */
  function Enter(w: World, ext: string, e: Env): (World, Option<Record>) {
    var (v, ready) := EnsureSession(w, e.refreshes, e.refresh, e.later);
    if !ready then (StartVerification(v, ext, e.callback, e.boot, e.later).0, None)
    else if !IsBlocked(v.coord, v.disk) then (v, Some(v.disk))
    else
      var (u, verdict) := StartVerification(v, ext, e.callback, e.boot, e.later);
      if verdict.Silent? && Usable(u.disk, u.now) && !IsBlocked(u.coord, u.disk) then (u, Some(u.disk)) else (u, None)
  }

  /** preflightSignedSession. */
  function Preflight(w: World, ext: string, e: Env): World {
    if Usable(w.disk, w.now) && !IsBlocked(w.coord, w.disk) then w
    else StartVerification(w, ext, e.callback, e.boot, e.later).0
  }

  // ----- answers to a signed request -----

  datatype Contract = Contract(origin: string, code: string, action: string, retryable: bool, retryMode: string)

  datatype Response = NoResponse | Response(status: nat, contract: Contract)

  datatype GatewayAction = NoAction | BootstrapSession | Verify

  function ActionOf(r: Response): GatewayAction
    requires r.Response?
  {
    if r.contract.origin != "gateway" then NoAction
    else if && r.status == 401 && r.contract.code == "SESSION_INVALID"
            && r.contract.action == "bootstrap_session"
    then BootstrapSession
    else if r.status == 428 && r.contract.code == "VERIFY_REQUIRED" && r.contract.action == "verify" then Verify
    else NoAction
  }

  predicate RetriesOperation(r: Response)
    requires r.Response?
  {
    && r.status == 503 && r.contract.origin == "provider" && r.contract.code == "PROVIDER_UNAVAILABLE"
    && r.contract.retryable && r.contract.retryMode == "same_operation"
  }

  predicate RejectsAuth(r: Response)
    requires r.Response?
  {
    && r.status == 403 && r.contract.origin == "gateway" && r.contract.code == "REQUEST_AUTH_INVALID"
    && r.contract.action == ""
  }

  /** A fetch in its loop: the record that signs the request, the budgets used, the requests sent. */
  datatype Call = Call(ext: string, record: Record, session: nat, provider: nat, auth: bool, sent: nat)

  /** What the fetch does with an answer: sign another request, or return. */
  datatype Next = Again(c: Call) | Return

  function Resend(c: Call): Call {
    c.(sent := c.sent + 1)
  }

  /** One turn of the loop in signedSessionFetch, from the answer on. */
  function Handle(w: World, c: Call, r: Response, e: Env): (World, Next) {
    if r.NoResponse? then (w, Return)
    else if RetriesOperation(r) then
      (w, if c.provider >= MAX_PROVIDER_RETRIES then Return else Again(Resend(c.(provider := c.provider + 1))))
    else if RejectsAuth(r) then
      (w, if !c.auth && Usable(w.disk, w.now) && !SameSession(w.disk, c.record)
          then Again(Resend(c.(auth := true, record := w.disk))) else Return)
    else if ActionOf(r) == NoAction then (w, Return)
    else if Usable(w.disk, w.now) && !SameSession(w.disk, c.record) then
      (w, if c.session >= MAX_SESSION_RETRIES then Return
          else Again(Resend(c.(session := c.session + 1, record := w.disk))))
    else
      var (u, verdict) := StartVerification(Punish(w, c.record, ActionOf(r)), c.ext, e.callback, e.boot, e.later);
      (u, if && verdict.Silent? && Usable(u.disk, u.now) && !SameSession(u.disk, c.record)
             && c.session < MAX_SESSION_RETRIES
          then Again(Resend(c.(session := c.session + 1, record := u.disk))) else Return)
  }

  /** The very session that signed the request is removed, or its generation blocked. */
  function Punish(w: World, signer: Record, a: GatewayAction): World {
    if !SameSession(w.disk, signer) then w
    else if a.BootstrapSession? then w.(disk := NO_SESSION, coord := w.coord.(blocked := ""))
    else if a.Verify? then w.(coord := w.coord.(blocked := Generation(signer)))
    else w
  }

  // ----- what every section keeps -----

  /** A URL on offer comes with its time and with the set of extensions that wait for it. */
  predicate ChallengeOk(c: Coord) {
    c.authUrl != "" ==> c.pendingIds.Some? && c.createdAt.Some?
  }

  /** The budgets of a fetch: one retry with another session, two for the provider, one for a
      rejected request, so at most five requests. */
  predicate CallOk(c: Call) {
    && c.session <= MAX_SESSION_RETRIES && c.provider <= MAX_PROVIDER_RETRIES
    && c.sent == 1 + c.session + c.provider + if c.auth then 1 else 0
  }

  /** Starting a verification keeps the challenge in order, and takes its time. */
  lemma VerificationKeeps(w: World, ext: string, e: Env)
    ensures var u := StartVerification(w, ext, e.callback, e.boot, e.later).0;
            (ChallengeOk(w.coord) ==> ChallengeOk(u.coord)) && (u.now == w.now || u.now == e.later)
  {
  }

  /** The answer of a bootstrap request is a session. */
  predicate BringsSession(boot: Boot) {
    boot.Boot? && boot.id != "" && boot.secret != "" && !boot.expires.Absent?
  }

  function Brought(boot: Boot): Record
    requires boot.Boot?
  {
    Record(boot.id, boot.secret, boot.expires)
  }

  /** The session a bootstrap brought is on disk, and not blocked. */
  predicate Replaced(u: World, boot: Boot) {
    BringsSession(boot) && u.disk == Brought(boot) && u.coord.blocked == ""
  }

  lemma VerificationLeaves(w: World, ext: string, e: Env)
    ensures var u := StartVerification(w, ext, e.callback, e.boot, e.later).0;
            (u.disk == w.disk && u.coord.blocked == w.coord.blocked) || Replaced(u, e.boot)
  {
  }

  lemma BudgetsKept(w: World, c: Call, r: Response, e: Env)
    requires CallOk(c)
    ensures Handle(w, c, r, e).1.Again? ==> CallOk(Handle(w, c, r, e).1.c)
  {
    hide StartVerification, Usable, SameSession, Punish;
  }

  lemma HandleKeeps(w: World, c: Call, r: Response, e: Env)
    requires ChallengeOk(w.coord)
    ensures ChallengeOk(Handle(w, c, r, e).0.coord)
  {
    hide StartVerification, Usable;
    if r.Response? {
      VerificationKeeps(Punish(w, c.record, ActionOf(r)), c.ext, e);
    }
  }

  /** What is beyond a fetch: the answers it gets, what the server does while it holds the lock, and what
      all the other runtimes make of the state while its request is on the way. */
  datatype Surroundings = Surroundings(answers: nat -> Response, envs: nat -> Env, others: (nat, World) -> World)

  ghost predicate Orderly(x: Surroundings) {
    forall k: nat, w: World :: ChallengeOk(w.coord) ==> ChallengeOk(x.others(k, w).coord)
  }

  /** The loop of signedSessionFetch from the k-th answer on: the state it leaves and the requests sent. */
  function FetchLoop(w: World, c: Call, k: nat, x: Surroundings): (World, nat)
    requires CallOk(c)
    decreases MAX_REQUESTS - c.sent
  {
    BudgetsKept(x.others(k, w), c, x.answers(k), x.envs(k));
    var (u, next) := Handle(x.others(k, w), c, x.answers(k), x.envs(k));
    if next.Return? then (u, c.sent) else FetchLoop(u, next.c, k + 1, x)
  }

  const MAX_REQUESTS := 5

  // ----- the same sections on mutable fields -----

  class Coordinator {
    var now: int
    var disk: Record
    var authUrl: string
    var callbackUrl: string
    var createdAt: Option<int>
    var pendingIds: Option<set<string>>
    var completedGrant: string
    var blocked: string
    var pendingAuth: map<string, PendingAuth>
    var bootstraps: nat
    var exchanges: nat

    function State(): World
      reads this
    {
      World(now, disk, Coord(authUrl, callbackUrl, createdAt, pendingIds, completedGrant, blocked), pendingAuth,
            bootstraps, exchanges)
    }

    constructor (now: int, disk: Record)
      ensures State() == World(now, disk, NEW_COORD, map[], 0, 0)
    {
      this.now, this.disk := now, disk;
      authUrl, callbackUrl, createdAt, pendingIds, completedGrant, blocked := "", "", None, None, "", "";
      pendingAuth, bootstraps, exchanges := map[], 0, 0;
    }

    method DropChallenge()
      modifies this
      ensures State() == ClearChallenge(old(State()))
    {
      if pendingIds.Some? {
        pendingAuth := pendingAuth - pendingIds.value;
      }
      authUrl, callbackUrl, createdAt, pendingIds := "", "", None, None;
    }

    method RememberChallenge(ext: string, url: string, callback: string)
      modifies this
      ensures State() == Remember(old(State()), ext, url, callback)
    {
      if pendingIds.None? { pendingIds := Some({}); }
      authUrl, callbackUrl, createdAt := url, callback, Some(now);
      pendingIds := Some(pendingIds.value + {ext});
    }

    /** An active challenge is only ever shared while the set of waiting extensions exists. */
    method StartVerificationLocked(ext: string, callback: string, boot: Boot, later: int) returns (v: Verdict)
      requires authUrl != "" ==> pendingIds.Some?
      modifies this
      ensures (State(), v) == StartVerification(old(State()), ext, callback, boot, later)
    {
      if Active(State().coord, now) {
        pendingAuth := pendingAuth[ext := PendingAuth(authUrl, callbackUrl, createdAt.value)];
        pendingIds := Some(pendingIds.value + {ext});
        return Url(authUrl);
      }
      if authUrl != "" { DropChallenge(); }
      if ext in pendingAuth {
        var p := pendingAuth[ext];
        if now - p.createdAt < PENDING_TTL && !Blank(p.authUrl) {
          RememberChallenge(ext, p.authUrl, p.callbackUrl);
          return Url(p.authUrl);
        }
      }
      pendingAuth := pendingAuth - {ext};
      v := SendBootstrap(ext, callback, boot, later);
    }

    method SendBootstrap(ext: string, callback: string, boot: Boot, later: int) returns (v: Verdict)
      modifies this
      ensures (State(), v) == Bootstrap(old(State()), ext, callback, boot, later)
    {
      bootstraps, now := bootstraps + 1, later;
      if boot.Failed? { return Error; }
      if boot.id != "" && boot.secret != "" && !boot.expires.Absent? {
        disk := Record(boot.id, boot.secret, boot.expires);
        blocked := "";
        DropChallenge();
        return Silent;
      }
      var url := boot.authUrl;
      if url == "" && boot.challengeUrl != "" { url := boot.challengeUrl; }
      if url == "" { url := boot.builtUrl; }
      if url == "" { return Error; }
      pendingAuth := pendingAuth[ext := PendingAuth(url, callback, now)];
      RememberChallenge(ext, url, callback);
      return Url(url);
    }

    method ExchangeGrantLocked(grantHash: string, answers: seq<Exchanged>, later: int) returns (ok: bool)
      modifies this
      ensures (State(), ok) == Exchange(old(State()), grantHash, answers, later)
    {
      if completedGrant == grantHash && Usable(disk, now) {
        blocked := "";
        DropChallenge();
        return true;
      }
      var attempt, answer := 1, if |answers| >= 1 then answers[0] else NetFail;
      while answer.Limited? && attempt < EXCHANGE_ATTEMPTS
        invariant 1 <= attempt <= EXCHANGE_ATTEMPTS
        invariant answer == if attempt <= |answers| then answers[attempt - 1] else NetFail
        invariant LastAnswer(answers, attempt) == LastAnswer(answers, 1)
        decreases EXCHANGE_ATTEMPTS - attempt
      {
        attempt := attempt + 1;
        answer := if attempt <= |answers| then answers[attempt - 1] else NetFail;
      }
      exchanges, now := exchanges + attempt, later;
      if !answer.Granted? || !IsSession(answer.id, answer.secret, answer.expires) { return false; }
      disk := Record(answer.id, answer.secret, answer.expires);
      completedGrant, blocked := grantHash, "";
      DropChallenge();
      return true;
    }

    method ClearSessionLocked(ext: string)
      modifies this
      ensures State() == ClearSession(old(State()), ext)
    {
      disk := NO_SESSION;
      blocked := "";
      DropChallenge();
      pendingAuth := pendingAuth - {ext};
    }

    method EnsureSessionLocked(e: Env) returns (ready: bool)
      modifies this
      ensures (State(), ready) == EnsureSession(old(State()), e.refreshes, e.refresh, e.later)
    {
      if disk.id == "" || disk.secret == "" { return false; }
      if disk.expires.Until? {
        if now > disk.expires.time {
          disk := NO_SESSION;
          return false;
        }
        if e.refreshes && disk.expires.time - now <= REFRESH_SKEW {
          if e.refresh.Refreshed? { disk := Merged(disk, e.refresh); }
          now := e.later;
        }
      }
      return true;
    }

    method PreflightLocked(ext: string, e: Env)
      requires authUrl != "" ==> pendingIds.Some?
      modifies this
      ensures State() == Preflight(old(State()), ext, e)
    {
      if Usable(disk, now) && !IsBlocked(State().coord, disk) { return; }
      var _ := StartVerificationLocked(ext, e.callback, e.boot, e.later);
    }

    /** The entry of a fetch: the record its first request is signed with, if it gets that far. */
    method EnterFetch(ext: string, e: Env) returns (record: Option<Record>)
      requires authUrl != "" ==> pendingIds.Some?
      modifies this
      ensures (State(), record) == Enter(old(State()), ext, e)
    {
      var ready := EnsureSessionLocked(e);
      if !ready {
        var _ := StartVerificationLocked(ext, e.callback, e.boot, e.later);
        return None;
      }
      if !IsBlocked(State().coord, disk) { return Some(disk); }
      var verdict := StartVerificationLocked(ext, e.callback, e.boot, e.later);
      if !verdict.Silent? || !Usable(disk, now) || IsBlocked(State().coord, disk) { return None; }
      return Some(disk);
    }

    /** One answer: retry, discard as stale, or punish the session that signed and verify. */
    method HandleAnswer(c: Call, r: Response, e: Env) returns (next: Next)
      requires authUrl != "" ==> pendingIds.Some?
      modifies this
      ensures (State(), next) == Handle(old(State()), c, r, e)
      ensures r.Response? && ActionOf(r) == BootstrapSession && SameSession(old(disk), c.record) ==>
                (disk == NO_SESSION && blocked == "") || Replaced(State(), e.boot)
      ensures r.Response? && ActionOf(r) == Verify && SameSession(old(disk), c.record) ==>
                (disk == old(disk) && blocked == Generation(c.record)) || Replaced(State(), e.boot)
      ensures !SameSession(old(disk), c.record) ==>
                (disk == old(disk) && blocked == old(blocked)) || Replaced(State(), e.boot)
    {
      hide StartVerification;
      if r.NoResponse? { return Return; }
      if RetriesOperation(r) {
        if c.provider >= MAX_PROVIDER_RETRIES { return Return; }
        return Again(Resend(c.(provider := c.provider + 1)));
      }
      if RejectsAuth(r) {
        if !c.auth && Usable(disk, now) && !SameSession(disk, c.record) {
          return Again(Resend(c.(auth := true, record := disk)));
        }
        return Return;
      }
      var action := ActionOf(r);
      if action.NoAction? { return Return; }
      if Usable(disk, now) && !SameSession(disk, c.record) {
        if c.session >= MAX_SESSION_RETRIES { return Return; }
        return Again(Resend(c.(session := c.session + 1, record := disk)));
      }
      if action.BootstrapSession? && SameSession(disk, c.record) {
        blocked := "";
        disk := NO_SESSION;
      } else if action.Verify? && SameSession(disk, c.record) {
        blocked := Generation(c.record);
      }
      VerificationLeaves(State(), c.ext, e);
      var verdict := StartVerificationLocked(c.ext, e.callback, e.boot, e.later);
      if verdict.Silent? && Usable(disk, now) && !SameSession(disk, c.record) && c.session < MAX_SESSION_RETRIES {
        return Again(Resend(c.(session := c.session + 1, record := disk)));
      }
      return Return;
    }

    /** What the other runtimes have made of the shared state. */
    method Become(w: World)
      modifies this
      ensures State() == w
    {
      now, disk, pendingAuth, bootstraps, exchanges := w.now, w.disk, w.pendingAuth, w.bootstraps, w.exchanges;
      authUrl, callbackUrl, createdAt := w.coord.authUrl, w.coord.callbackUrl, w.coord.createdAt;
      pendingIds, completedGrant, blocked := w.coord.pendingIds, w.coord.completedGrant, w.coord.blocked;
    }

    /** The loop ends whatever the server and the other runtimes do, within five requests. */
    method FetchFrom(c: Call, x: Surroundings) returns (sent: nat)
      requires CallOk(c) && ChallengeOk(State().coord) && Orderly(x)
      modifies this
      ensures (State(), sent) == FetchLoop(old(State()), c, 0, x)
      ensures sent <= MAX_REQUESTS
    {
      var call, k := c, 0;
      while true
        invariant CallOk(call) && ChallengeOk(State().coord)
        invariant FetchLoop(State(), call, k, x) == FetchLoop(old(State()), c, 0, x)
        decreases MAX_REQUESTS - call.sent
      {
        Become(x.others(k, State()));
        HandleKeeps(State(), call, x.answers(k), x.envs(k));
        BudgetsKept(State(), call, x.answers(k), x.envs(k));
        var next := HandleAnswer(call, x.answers(k), x.envs(k));
        if next.Return? { return call.sent; }
        call := next.c;
        k := k + 1;
      }
    }
  }
}
