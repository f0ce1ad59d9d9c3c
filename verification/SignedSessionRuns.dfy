/**
 Many fetches, grant callbacks, preflights and clears of one signed session, interleaved at
 the boundaries of the coordinator's mutex, against a server that may answer anything, in any
 order, at any time.
 */
module SignedSessionRuns {
  import opened Bytes
  import opened SignedSession

  /** A fetch: not running, its request on the way, or its answer waiting for the lock. */
  datatype Fetch = Idle | InFlight(c: Call) | Answered(c: Call, r: Response)

  datatype State = State(w: World, fetches: seq<Fetch>)

  datatype Action =
    | Begin(i: nat, ext: string, e: Env)
    | Answer(i: nat, r: Response)
    | React(i: nat, e: Env)
    | Grant(hash: string, answers: seq<Exchanged>, later: int)
    | Prepare(ext: string, e: Env)
    | ClearAll(ext: string)
    | Tick(to: int)
    | PutPending(ext: string, p: PendingAuth)   // other parts of the backend share this table
    | DropPending(ext: string)

  predicate Enabled(s: State, a: Action) {
    match a
    case Begin(i, _, e) => i < |s.fetches| && s.fetches[i].Idle? && e.later >= s.w.now
    case Answer(i, _) => i < |s.fetches| && s.fetches[i].InFlight?
    case React(i, e) => i < |s.fetches| && s.fetches[i].Answered? && e.later >= s.w.now
    case Grant(_, _, later) => later >= s.w.now
    case Prepare(_, e) => e.later >= s.w.now
    case Tick(to) => to >= s.w.now
    case _ => true
  }

  function Apply(s: State, a: Action): State
    requires Enabled(s, a)
  {
    match a
    case Begin(i, ext, e) =>
      var (w, record) := Enter(s.w, ext, e);
      State(w, if record.None? then s.fetches
               else s.fetches[i := InFlight(Call(ext, record.value, 0, 0, false, 1))])
    case Answer(i, r) => s.(fetches := s.fetches[i := Answered(s.fetches[i].c, r)])
    case React(i, e) =>
      var (w, next) := Handle(s.w, s.fetches[i].c, s.fetches[i].r, e);
      State(w, s.fetches[i := if next.Again? then InFlight(next.c) else Idle])
    case Grant(hash, answers, later) => s.(w := Exchange(s.w, hash, answers, later).0)
    case Prepare(ext, e) => s.(w := Preflight(s.w, ext, e))
    case ClearAll(ext) => s.(w := ClearSession(s.w, ext))
    case Tick(to) => s.(w := s.w.(now := to))
    case PutPending(ext, p) => s.(w := s.w.(pendingAuth := s.w.pendingAuth[ext := p]))
    case DropPending(ext) => s.(w := s.w.(pendingAuth := s.w.pendingAuth - {ext}))
  }

  function Init(now: int, disk: Record, fetches: nat): State {
    State(World(now, disk, NEW_COORD, map[], 0, 0), seq(fetches, _ => Idle))
  }

  ghost predicate IsRun(s: State, acts: seq<Action>, end: State)
    decreases |acts|
  {
    if acts == [] then end == s else Enabled(s, acts[0]) && IsRun(Apply(s, acts[0]), acts[1..], end)
  }

  // ----- answers -----

  /** The two answers that are the gateway's own word on the session. */
  predicate IsGatewayWord(r: Response) {
    r.Response? && ActionOf(r) != NoAction
  }

  /** Which answers can touch anything: whatever its body says, an answer changes the shared state for some
      session, challenge and time exactly if the gateway sends one of two triples. All others, a provider's
      own 401 among them, change nothing for any. */
  lemma AnswersThatMatter(r: Response)
    requires r.Response?
    ensures (exists w: World, c: Call, e: Env :: Handle(w, c, r, e).0 != w)
       <==> r.contract.origin == "gateway"
            && ((r.status, r.contract.code, r.contract.action) == (401, "SESSION_INVALID", "bootstrap_session")
                || (r.status, r.contract.code, r.contract.action) == (428, "VERIFY_REQUIRED", "verify"))
    ensures IsGatewayWord(r) ==> !RetriesOperation(r) && !RejectsAuth(r)
    ensures !(RetriesOperation(r) && RejectsAuth(r))
  {
    if IsGatewayWord(r) {
      WordMatters(r);
    }
  }

  lemma WordMatters(r: Response)
    requires IsGatewayWord(r)
    ensures exists w: World, c: Call, e: Env :: Handle(w, c, r, e).0 != w
  {
    var w := World(0, NO_SESSION, NEW_COORD, map[], 0, 0);
    var c := Call("ext", NO_SESSION, 0, 0, false, 1);
    var e := Env(false, NoRefresh, Failed, "", 0);
    assert !Usable(w.disk, 0);
    var u := Handle(w, c, r, e).0;
    assert u.bootstraps == 1;
  }

  /** Every other answer leaves session, block, challenge and all else as they are. */
  lemma OtherAnswersChangeNothing(s: State, a: Action)
    requires Enabled(s, a) && a.React? && !IsGatewayWord(s.fetches[a.i].r)
    ensures Apply(s, a).w == s.w
  {
  }

  /** A stale answer, of whatever kind, changes nothing: the session on disk is usable and not the
      one that signed the request. The fetch goes on with the newer session or returns. */
  lemma StaleAnswersChangeNothing(s: State, a: Action)
    requires Enabled(s, a) && a.React?
    requires Usable(s.w.disk, s.w.now) && !SameSession(s.w.disk, s.fetches[a.i].c.record)
    ensures Apply(s, a).w == s.w
    ensures Apply(s, a).fetches[a.i].InFlight? ==>
              Apply(s, a).fetches[a.i].c.record == s.w.disk || RetriesOperation(s.fetches[a.i].r)
  {
  }

  /** When an action replaces or removes a usable session: it is cleared by the extension; a grant or
      a due refresh brings another; a blocked one is bootstrapped anew; or the gateway has said its
      word on the very session that signed the request. */
  predicate MayReplace(s: State, a: Action)
    requires Enabled(s, a)
  {
    match a
    case ClearAll(_) => true
    case Grant(_, _, _) => true
    case Begin(_, _, e) => RefreshDue(s.w, e.refreshes) || IsBlocked(s.w.coord, s.w.disk)
    case Prepare(_, _) => IsBlocked(s.w.coord, s.w.disk)
    case React(i, _) => IsGatewayWord(s.fetches[i].r) && SameSession(s.w.disk, s.fetches[i].c.record)
    case _ => false
  }

  lemma WhatReplaces(s: State, a: Action)
    requires Enabled(s, a) && Usable(s.w.disk, s.w.now) && Apply(s, a).w.disk != s.w.disk
    ensures MayReplace(s, a)
  {
    BlankIsEmpty(s.w.disk);
  }

  lemma BlankIsEmpty(r: Record)
    ensures !Blank(r.id) && !Blank(r.secret) ==> r.id != "" && r.secret != ""
  {
  }

  lemma VerificationKeepsOrReplaces(w: World, ext: string, e: Env)
    ensures var u := StartVerification(w, ext, e.callback, e.boot, e.later).0;
            u.disk == w.disk || u.disk.id != ""
  {
  }

  /** A fetch removes a usable session, leaving none, only on SESSION_INVALID from the gateway for
      the very session that signed the request. */
  lemma WhatClears(s: State, a: Action)
    requires Enabled(s, a) && Usable(s.w.disk, s.w.now) && Apply(s, a).w.disk.id == ""
    ensures match a
            case ClearAll(_) => true
            case React(i, _) =>
              && s.fetches[i].r.Response? && ActionOf(s.fetches[i].r) == BootstrapSession
              && SameSession(s.w.disk, s.fetches[i].c.record)
            case _ => false
  {
    hide StartVerification;
    BlankIsEmpty(s.w.disk);
    match a
    case Begin(_, ext, e) =>
      VerificationKeepsOrReplaces(s.w, ext, e);
      VerificationKeepsOrReplaces(EnsureSession(s.w, e.refreshes, e.refresh, e.later).0, ext, e);
    case Prepare(ext, e) => VerificationKeepsOrReplaces(s.w, ext, e);
    case React(i, e) =>
      var c, r := s.fetches[i].c, s.fetches[i].r;
      if r.Response? {
        VerificationKeepsOrReplaces(Punish(s.w, c.record, ActionOf(r)), c.ext, e);
      }
    case _ =>
  }

  // ----- challenges, grants, blocks -----

  /** While a challenge is active no bootstrap is sent, by whatever action. */
  lemma ActiveChallengeIsShared(s: State, a: Action)
    requires Enabled(s, a) && Active(s.w.coord, s.w.now)
    requires a.Begin? && RefreshDue(s.w, a.e.refreshes) ==> Active(s.w.coord, a.e.later)  // the refresh takes time
    ensures Apply(s, a).w.bootstraps == s.w.bootstraps
  {
  }

  /** A repeat of the last completed grant, with a usable session, is not exchanged again. */
  lemma GrantIsExchangedOnce(s: State, a: Action)
    requires Enabled(s, a) && a.Grant? && a.hash == s.w.coord.completedGrant && Usable(s.w.disk, s.w.now)
    ensures Apply(s, a).w.exchanges == s.w.exchanges && Apply(s, a).w.disk == s.w.disk
    ensures Apply(s, a).w.coord.blocked == "" && Apply(s, a).w.coord.authUrl == ""
  {
  }

  /** An exchange sends at most three requests, and repeats none but a rate-limited one. */
  lemma {:induction false} ExchangeIsBounded(answers: seq<Exchanged>, attempt: nat)
    requires 1 <= attempt <= EXCHANGE_ATTEMPTS
    ensures var (a, sent) := LastAnswer(answers, attempt);
            && attempt <= sent <= EXCHANGE_ATTEMPTS
            && (forall k :: attempt - 1 <= k < sent - 1 ==> k < |answers| && answers[k] == Limited)
            && (a == Limited ==> sent == EXCHANGE_ATTEMPTS)
    decreases EXCHANGE_ATTEMPTS - attempt
  {
    if attempt <= |answers| && answers[attempt - 1].Limited? && attempt < EXCHANGE_ATTEMPTS {
      ExchangeIsBounded(answers, attempt + 1);
    }
  }

  /** The first request of a fetch is not signed by a generation blocked when the lock was released,
      and it is signed by the session then on disk. */
  lemma FirstRequestIsNotBlocked(s: State, a: Action)
    requires Enabled(s, a) && a.Begin? && Apply(s, a).fetches[a.i].InFlight?
    ensures var t := Apply(s, a); var record := t.fetches[a.i].c.record;
            record == t.w.disk && Generation(record) != "" && Generation(record) != t.w.coord.blocked
  {
    BlankIsEmpty(Apply(s, a).w.disk);
  }

  lemma SilentUnblocks(w: World, ext: string, e: Env)
    ensures var (u, verdict) := StartVerification(w, ext, e.callback, e.boot, e.later);
            verdict.Silent? ==> u.coord.blocked == ""
  {
  }

  /** Which requests are signed by a blocked generation: never a first one; a further one exactly if it
      repeats the operation for the provider with a signer blocked meanwhile, or turns from a stale
      session to one on disk that is blocked. */
  lemma SignerBlockedIff(s: State, a: Action)
    requires Enabled(s, a) && (a.Begin? || a.React?) && Apply(s, a).fetches[a.i].InFlight?
    requires a.Begin? ==> s.fetches[a.i].Idle?
    ensures IsBlocked(Apply(s, a).w.coord, Apply(s, a).fetches[a.i].c.record)
       <==> a.React? && TurnsToBlocked(s.w, s.fetches[a.i].c.record, s.fetches[a.i].r)
  {
    hide StartVerification, Usable;
    if a.Begin? {
      FirstRequestIsNotBlocked(s, a);
    } else {
      var c, r := s.fetches[a.i].c, s.fetches[a.i].r;
      if r.Response? {
        SilentUnblocks(Punish(s.w, c.record, ActionOf(r)), c.ext, a.e);
      }
    }
  }

  predicate TurnsToBlocked(w: World, signer: Record, r: Response) {
    r.Response? &&
    if RetriesOperation(r) then IsBlocked(w.coord, signer)
    else Usable(w.disk, w.now) && !SameSession(w.disk, signer) && IsBlocked(w.coord, w.disk)
  }

  // ----- invariants of all runs -----

  ghost predicate Inv(s: State) {
    ChallengeOk(s.w.coord) && forall i :: 0 <= i < |s.fetches| && !s.fetches[i].Idle? ==> CallOk(s.fetches[i].c)
  }

  lemma ChallengeKept(s: State, a: Action)
    requires Enabled(s, a) && ChallengeOk(s.w.coord)
    ensures ChallengeOk(Apply(s, a).w.coord)
  {
    hide StartVerification, LastAnswer, Usable, IsBlocked;
    match a
    case Begin(_, ext, e) => VerificationKeeps(EnsureSession(s.w, e.refreshes, e.refresh, e.later).0, ext, e);
    case Prepare(ext, e) => VerificationKeeps(s.w, ext, e);
    case React(i, e) =>
      var c, r := s.fetches[i].c, s.fetches[i].r;
      if r.Response? {
        VerificationKeeps(Punish(s.w, c.record, ActionOf(r)), c.ext, e);
      }
    case _ =>
  }

  lemma StepKeeps(s: State, a: Action)
    requires Inv(s) && Enabled(s, a)
    ensures Inv(Apply(s, a))
  {
    hide Handle, Enter, CallOk, ChallengeOk, Exchange, Preflight, ClearSession;
    ChallengeKept(s, a);
    match a
    case Begin(i, ext, e) =>
      assert Enter(s.w, ext, e).1.Some? ==> CallOk(Call(ext, Enter(s.w, ext, e).1.value, 0, 0, false, 1)) by {
        FreshCall(ext, s.w, e);
      }
    case React(i, e) => BudgetsKept(s.w, s.fetches[i].c, s.fetches[i].r, e);
    case _ =>
  }

  lemma FreshCall(ext: string, w: World, e: Env)
    ensures Enter(w, ext, e).1.Some? ==> CallOk(Call(ext, Enter(w, ext, e).1.value, 0, 0, false, 1))
  {
    hide Enter;
  }

  /** Every further request uses up budget: a fetch ends after at most five. */
  lemma RetriesAreBounded(s: State, a: Action)
    requires Inv(s) && Enabled(s, a) && a.React?
    ensures Apply(s, a).fetches[a.i].InFlight? ==> Apply(s, a).fetches[a.i].c.sent == s.fetches[a.i].c.sent + 1
    ensures s.fetches[a.i].c.sent == 5 ==> Apply(s, a).fetches[a.i].Idle?
  {
  }

  lemma {:induction false} RunKeeps(s: State, acts: seq<Action>, end: State)
    requires Inv(s) && IsRun(s, acts, end)
    ensures Inv(end) && s.w.now <= end.w.now
    decreases |acts|
  {
    hide Inv, Apply, Enabled;
    if acts != [] {
      StepKeeps(s, acts[0]);
      TimePasses(s, acts[0]);
      RunKeeps(Apply(s, acts[0]), acts[1..], end);
    }
  }

  lemma TimePasses(s: State, a: Action)
    requires Enabled(s, a)
    ensures s.w.now <= Apply(s, a).w.now
  {
    hide StartVerification, LastAnswer, Usable, IsBlocked;
    match a
    case Begin(_, ext, e) => VerificationKeeps(EnsureSession(s.w, e.refreshes, e.refresh, e.later).0, ext, e);
    case Prepare(ext, e) => VerificationKeeps(s.w, ext, e);
    case React(i, e) =>
      var c, r := s.fetches[i].c, s.fetches[i].r;
      if r.Response? {
        VerificationKeeps(Punish(s.w, c.record, ActionOf(r)), c.ext, e);
      }
    case _ =>
  }

  /** In every run, whatever the server answers: no fetch has more than five requests behind it, and
      a challenge URL is never without its set of waiting extensions. */
  lemma RunsAreBounded(now: int, disk: Record, fetches: nat, acts: seq<Action>, end: State)
    requires IsRun(Init(now, disk, fetches), acts, end)
    ensures forall i :: 0 <= i < |end.fetches| && !end.fetches[i].Idle? ==> 1 <= end.fetches[i].c.sent <= 5
    ensures end.w.coord.authUrl != "" ==> end.w.coord.pendingIds.Some?
  {
    hide IsRun, Apply, Enabled;
    RunKeeps(Init(now, disk, fetches), acts, end);
  }

  // ----- a session survives -----

  /** The grant brings a new session: it is no repeat, and the server grants one. */
  predicate Completes(w: World, hash: string, answers: seq<Exchanged>) {
    && !(w.coord.completedGrant == hash && Usable(w.disk, w.now))
    && var a := LastAnswer(answers, 1).0;
       a.Granted? && IsSession(a.id, a.secret, a.expires)
  }

  predicate Peaceful(s: State, a: Action, session: Record)
    requires Enabled(s, a)
  {
    match a
    case ClearAll(_) => false
    case Grant(hash, answers, _) => !Completes(s.w, hash, answers)
    case Begin(_, _, e) => !RefreshDue(s.w, e.refreshes)
    case React(i, _) => IsGatewayWord(s.fetches[i].r) ==> !SameSession(session, s.fetches[i].c.record)
    case _ => true
  }

  ghost predicate PeacefulRun(s: State, acts: seq<Action>, session: Record)
    decreases |acts|
  {
    acts != [] ==>
      Enabled(s, acts[0]) && Peaceful(s, acts[0], session) && PeacefulRun(Apply(s, acts[0]), acts[1..], session)
  }

  lemma PeaceKeeps(s: State, a: Action, session: Record)
    requires Enabled(s, a) && Peaceful(s, a, session)
    requires s.w.disk == session && Usable(session, s.w.now) && !IsBlocked(s.w.coord, session)
    ensures Apply(s, a).w.disk == session && !IsBlocked(Apply(s, a).w.coord, session)
    ensures Apply(s, a).w.bootstraps == s.w.bootstraps
    ensures s.w.coord.authUrl == "" ==> Apply(s, a).w.coord.authUrl == ""
  {
    hide LastAnswer, StartVerification;
    BlankIsEmpty(session);
    if a.React? && IsGatewayWord(s.fetches[a.i].r) {
      StaleAnswersChangeNothing(s, a);
    }
  }

  /** A usable session that is not blocked outlives any number of fetches, preflights and answers,
      in any order, and grants that fail or are repeated, as long as the gateway does not speak of this
      very session, no grant brings another and the extension does not clear it: answers to requests
      signed by older sessions neither remove nor replace nor block it. */
  lemma {:induction false} SessionSurvives(s: State, acts: seq<Action>, end: State, session: Record)
    requires IsRun(s, acts, end) && PeacefulRun(s, acts, session)
    requires s.w.disk == session && Usable(session, end.w.now) && !IsBlocked(s.w.coord, session)
    ensures end.w.disk == session && !IsBlocked(end.w.coord, session)
    decreases |acts|
  {
    hide Apply, Enabled, Peaceful, IsBlocked;
    if acts != [] {
      RunTime(s, acts, end);
      PeaceKeeps(s, acts[0], session);
      SessionSurvives(Apply(s, acts[0]), acts[1..], end, session);
    }
  }

  lemma {:induction false} RunTime(s: State, acts: seq<Action>, end: State)
    requires IsRun(s, acts, end)
    ensures s.w.now <= end.w.now
    decreases |acts|
  {
    hide Apply, Enabled;
    if acts != [] {
      TimePasses(s, acts[0]);
      RunTime(Apply(s, acts[0]), acts[1..], end);
    }
  }

  // ----- one challenge at a time -----

  predicate SameChallenge(c: Coord, d: Coord) {
    c.authUrl == d.authUrl && c.createdAt == d.createdAt
  }

  lemma VerificationShares(w: World, ext: string, e: Env)
    requires Active(w.coord, w.now)
    ensures var u := StartVerification(w, ext, e.callback, e.boot, e.later).0;
            SameChallenge(w.coord, u.coord) && u.bootstraps == w.bootstraps && u.now == w.now
  {
  }

  /** A challenge that is active throughout an action outlasts it exactly if the action is no clear and
      no grant that succeeds, be it new or a repeat; and no bootstrap is sent in any case. */
  lemma ChallengeStaysIff(s: State, a: Action)
    requires Enabled(s, a) && Active(s.w.coord, Apply(s, a).w.now)
    ensures SameChallenge(s.w.coord, Apply(s, a).w.coord)
       <==> !a.ClearAll? && !(a.Grant? && Exchange(s.w, a.hash, a.answers, a.later).1)
    ensures Apply(s, a).w.bootstraps == s.w.bootstraps
  {
    hide StartVerification, Usable, IsBlocked;
    TimePasses(s, a);
    match a
    case Begin(_, ext, e) =>
      var v := EnsureSession(s.w, e.refreshes, e.refresh, e.later).0;
      VerificationKeeps(v, ext, e);
      if Active(v.coord, v.now) {
        VerificationShares(v, ext, e);
      }
    case Prepare(ext, e) => VerificationShares(s.w, ext, e);
    case React(i, e) =>
      var c, r := s.fetches[i].c, s.fetches[i].r;
      if r.Response? {
        VerificationShares(Punish(s.w, c.record, ActionOf(r)), c.ext, e);
      }
    case _ =>
  }

  /** While the challenge is on offer: no clear, and no grant that brings a session; a repeated grant only
      for a session that is usable until the end. Once a repeat has closed the challenge: only what
      leaves that session alone. */
  predicate Quiet(s: State, a: Action, until: int)
    requires Enabled(s, a)
  {
    if s.w.coord.authUrl == "" then Peaceful(s, a, s.w.disk)
    else
      && !a.ClearAll?
      && (a.Grant? ==> !Completes(s.w, a.hash, a.answers)
                       && (Exchange(s.w, a.hash, a.answers, a.later).1 ==> Usable(s.w.disk, until)))
  }

  ghost predicate QuietRun(s: State, acts: seq<Action>, until: int)
    decreases |acts|
  {
    acts != [] ==>
      Enabled(s, acts[0]) && Quiet(s, acts[0], until) && QuietRun(Apply(s, acts[0]), acts[1..], until)
  }

  /** The challenge is the one of the beginning, or a repeated grant has closed it over a good session. */
  predicate SameOrClosed(c: Coord, w: World, until: int) {
    || (SameChallenge(c, w.coord) && w.coord.authUrl != "")
    || (w.coord.authUrl == "" && Usable(w.disk, until) && !IsBlocked(w.coord, w.disk))
  }

  lemma QuietKeeps(s: State, a: Action, c: Coord, until: int)
    requires Enabled(s, a) && Quiet(s, a, until) && SameOrClosed(c, s.w, until)
    requires Active(c, until) && Apply(s, a).w.now <= until
    ensures SameOrClosed(c, Apply(s, a).w, until) && Apply(s, a).w.bootstraps == s.w.bootstraps
  {
    TimePasses(s, a);
    if s.w.coord.authUrl == "" {
      hide Apply, Peaceful, IsBlocked;
      PeaceKeeps(s, a, s.w.disk);
    } else {
      ChallengeStaysIff(s, a);
      if a.Grant? && Exchange(s.w, a.hash, a.answers, a.later).1 {
        RepeatCloses(s, a);
      }
    }
  }

  lemma RepeatCloses(s: State, a: Action)
    requires Enabled(s, a) && a.Grant? && !Completes(s.w, a.hash, a.answers)
             && Exchange(s.w, a.hash, a.answers, a.later).1
    ensures Apply(s, a).w.coord.authUrl == "" && Apply(s, a).w.disk == s.w.disk
    ensures !IsBlocked(Apply(s, a).w.coord, s.w.disk)
  {
  }

  /** From the moment a challenge is offered until it expires, however many runtimes ask for a verification,
      whatever grants fail or are repeated, no second bootstrap is sent, and the challenge stays the same
      until a repeated grant closes it. */
  lemma {:induction false} OneChallengeAtATime(s: State, acts: seq<Action>, end: State, c: Coord)
    requires IsRun(s, acts, end) && QuietRun(s, acts, end.w.now)
    requires Active(c, end.w.now) && SameOrClosed(c, s.w, end.w.now)
    ensures end.w.bootstraps == s.w.bootstraps
    ensures SameChallenge(c, end.w.coord) || end.w.coord.authUrl == ""
    decreases |acts|
  {
    hide Apply, Enabled, Quiet;
    if acts != [] {
      RunTime(Apply(s, acts[0]), acts[1..], end);
      QuietKeeps(s, acts[0], c, end.w.now);
      OneChallengeAtATime(Apply(s, acts[0]), acts[1..], end, c);
    }
  }

  // ----- answers over runs -----

  /** What fetches and preflights do while no answer is the gateway's word and the session is good. */
  predicate Ordinary(s: State, a: Action)
    requires Enabled(s, a)
  {
    match a
    case Answer(_, _) => true
    case Tick(_) => true
    case React(i, _) => !IsGatewayWord(s.fetches[i].r)
    case Begin(_, _, e) => Usable(s.w.disk, s.w.now) && !IsBlocked(s.w.coord, s.w.disk) && !RefreshDue(s.w, e.refreshes)
    case Prepare(_, _) => Usable(s.w.disk, s.w.now) && !IsBlocked(s.w.coord, s.w.disk)
    case _ => false
  }

  ghost predicate OrdinaryRun(s: State, acts: seq<Action>)
    decreases |acts|
  {
    acts != [] ==> Enabled(s, acts[0]) && Ordinary(s, acts[0]) && OrdinaryRun(Apply(s, acts[0]), acts[1..])
  }

  /** Over whole runs of any number of fetches, answers of any kind but the two that matter leave session,
      block, challenge and pending requests exactly as they were. */
  lemma {:induction false} OtherAnswersOverRuns(s: State, acts: seq<Action>, end: State)
    requires IsRun(s, acts, end) && OrdinaryRun(s, acts)
    ensures end.w == s.w.(now := end.w.now)
    decreases |acts|
  {
    hide Apply, Enabled, Ordinary;
    if acts != [] {
      OrdinaryStep(s, acts[0]);
      OtherAnswersOverRuns(Apply(s, acts[0]), acts[1..], end);
    }
  }

  lemma OrdinaryStep(s: State, a: Action)
    requires Enabled(s, a) && Ordinary(s, a)
    ensures Apply(s, a).w == s.w.(now := Apply(s, a).w.now)
  {
    BlankIsEmpty(s.w.disk);
    if a.React? {
      OtherAnswersChangeNothing(s, a);
    }
  }

  // ----- grants over runs -----

  /** How many exchange requests a run sends for this grant. */
  function SentFor(hash: string, s: State, acts: seq<Action>): int
    decreases |acts|
  {
    if acts == [] || !Enabled(s, acts[0]) then 0
    else (if acts[0].Grant? && acts[0].hash == hash then Apply(s, acts[0]).w.exchanges - s.w.exchanges else 0)
         + SentFor(hash, Apply(s, acts[0]), acts[1..])
  }

  /** The session stays usable, and no other grant brings a session. */
  ghost predicate StaysGranted(s: State, acts: seq<Action>, hash: string)
    decreases |acts|
  {
    acts != [] ==>
      && Usable(s.w.disk, s.w.now) && Enabled(s, acts[0])
      && (acts[0].Grant? && acts[0].hash != hash ==> !Completes(s.w, acts[0].hash, acts[0].answers))
      && StaysGranted(Apply(s, acts[0]), acts[1..], hash)
  }

  lemma VerificationRemembers(w: World, ext: string, e: Env)
    ensures StartVerification(w, ext, e.callback, e.boot, e.later).0.coord.completedGrant == w.coord.completedGrant
  {
  }

  lemma GrantRemembered(s: State, a: Action)
    requires Enabled(s, a) && (a.Grant? ==> !Completes(s.w, a.hash, a.answers))
    ensures Apply(s, a).w.coord.completedGrant == s.w.coord.completedGrant
  {
    hide LastAnswer, Usable, StartVerification, IsBlocked;
    match a
    case Begin(_, ext, e) => VerificationRemembers(EnsureSession(s.w, e.refreshes, e.refresh, e.later).0, ext, e);
    case Prepare(ext, e) => VerificationRemembers(s.w, ext, e);
    case React(i, e) =>
      var c, r := s.fetches[i].c, s.fetches[i].r;
      if r.Response? {
        VerificationRemembers(Punish(s.w, c.record, ActionOf(r)), c.ext, e);
      }
    case _ =>
  }

  lemma {:induction false} RepeatsSendNothing(s: State, acts: seq<Action>, end: State, hash: string)
    requires IsRun(s, acts, end) && StaysGranted(s, acts, hash) && s.w.coord.completedGrant == hash
    ensures SentFor(hash, s, acts) == 0
    decreases |acts|
  {
    hide Apply, Enabled, Completes, Usable;
    if acts != [] {
      var a := acts[0];
      if a.Grant? && a.hash == hash {
        GrantIsExchangedOnce(s, a);
        NotNew(s, a);
      }
      GrantRemembered(s, a);
      RepeatsSendNothing(Apply(s, a), acts[1..], end, hash);
    }
  }

  lemma NotNew(s: State, a: Action)
    requires a.Grant? && a.hash == s.w.coord.completedGrant && Usable(s.w.disk, s.w.now)
    ensures !Completes(s.w, a.hash, a.answers)
  {
  }

  /** Once a grant has succeeded, it is never sent again, however often its callback arrives and whatever
      else happens, while the session stays usable and no other grant brings a new one. */
  lemma GrantIsSentOnce(s: State, first: Action, acts: seq<Action>, end: State)
    requires Enabled(s, first) && first.Grant? && Exchange(s.w, first.hash, first.answers, first.later).1
    requires IsRun(Apply(s, first), acts, end) && StaysGranted(Apply(s, first), acts, first.hash)
    ensures SentFor(first.hash, Apply(s, first), acts) == 0
  {
    hide IsRun, StaysGranted, SentFor, LastAnswer;
    RepeatsSendNothing(Apply(s, first), acts, end, first.hash);
  }

  // ----- a request signed by a blocked session -----

  lemma RunCons(s: State, a: Action, acts: seq<Action>, end: State)
    requires Enabled(s, a) && IsRun(Apply(s, a), acts, end)
    ensures IsRun(s, [a] + acts, end)
  {
    assert ([a] + acts)[1..] == acts;
  }

  const OLD := Record("a", "x", Absent)
  const NEWER := Record("b", "y", Until(1000))
  const QUIET_ENV := Env(false, NoRefresh, Failed, "", 0)
  const VERIFY := Response(428, Contract("gateway", "VERIFY_REQUIRED", "verify", false, ""))
  const INVALID := Response(401, Contract("gateway", "SESSION_INVALID", "bootstrap_session", false, ""))

  /** Two requests on the way, one signed by the old session and one by the new. */
  function TwoOnTheWay(): State {
    State(World(0, NEWER, NEW_COORD.(completedGrant := "g"), map[], 0, 1),
          [InFlight(Call("ext", OLD, 0, 0, false, 1)), InFlight(Call("ext", NEWER, 0, 0, false, 1))])
  }

  lemma BothUsable()
    ensures Usable(OLD, 0) && Usable(NEWER, 0) && Generation(OLD) != "" && Generation(NEWER) != ""
    ensures !SameSession(NEWER, OLD) && SameSession(NEWER, NEWER)
  {
    assert 'a' in "a" && 'x' in "x" && 'b' in "b" && 'y' in "y";
  }

  lemma BothBegin()
    ensures IsRun(Init(0, OLD, 2), [Begin(0, "ext", QUIET_ENV), Grant("g", [Granted("b", "y", Until(1000))], 0),
                                    Begin(1, "ext", QUIET_ENV)], TwoOnTheWay())
  {
    BothUsable();
    var s0 := Init(0, OLD, 2);
    var a1, a3 := Begin(0, "ext", QUIET_ENV), Begin(1, "ext", QUIET_ENV);
    var a2 := Grant("g", [Granted("b", "y", Until(1000))], 0);
    var s1 := Apply(s0, a1);
    assert s1 == State(s0.w, [InFlight(Call("ext", OLD, 0, 0, false, 1)), Idle]);
    var s2 := Apply(s1, a2);
    assert s2.w == TwoOnTheWay().w;
    assert Apply(s2, a3) == TwoOnTheWay();
    RunCons(s2, a3, [], TwoOnTheWay());
    RunCons(s1, a2, [a3], TwoOnTheWay());
    RunCons(s0, a1, [a2, a3], TwoOnTheWay());
    assert [a1] + ([a2] + ([a3] + [])) == [a1, a2, a3];
  }

  lemma RetryBlocked() returns (acts: seq<Action>, end: State)
    ensures IsRun(TwoOnTheWay(), acts, end) && end.fetches != [] && end.fetches[0].InFlight?
    ensures IsBlocked(end.w.coord, end.fetches[0].c.record)
  {
    BothUsable();
    var a1, a2, a3, a4 := Answer(1, VERIFY), React(1, QUIET_ENV), Answer(0, INVALID), React(0, QUIET_ENV);
    var s1 := Apply(TwoOnTheWay(), a1);
    var s2 := Apply(s1, a2);
    assert s2.fetches == [InFlight(Call("ext", OLD, 0, 0, false, 1)), Idle];
    assert s2.w.coord.blocked == Generation(NEWER) && s2.w.disk == NEWER && s2.w.now == 0;
    var s3 := Apply(s2, a3);
    end := Apply(s3, a4);
    assert end.fetches[0] == InFlight(Call("ext", NEWER, 1, 0, false, 2));
    RunCons(s3, a4, [], end);
    RunCons(s2, a3, [a4] + [], end);
    RunCons(s1, a2, [a3] + ([a4] + []), end);
    RunCons(TwoOnTheWay(), a1, [a2] + ([a3] + ([a4] + [])), end);
    acts := [a1] + ([a2] + ([a3] + ([a4] + [])));
  }

  lemma {:induction false} RunAppend(s: State, acts: seq<Action>, mid: State, more: seq<Action>, end: State)
    requires IsRun(s, acts, mid) && IsRun(mid, more, end)
    ensures IsRun(s, acts + more, end)
    decreases |acts|
  {
    hide Enabled, Apply;
    if acts == [] {
      assert acts + more == more;
    } else {
      RunAppend(Apply(s, acts[0]), acts[1..], mid, more, end);
      assert (acts + more)[1..] == acts[1..] + more;
    }
  }

  /** The block is meant to keep requests of a generation that needs verification from the gateway. A run
      in which one is sent all the same: while a request of the old session is on the way, the new one is
      blocked; the answer to the old one is stale, and the retry is signed by the blocked session. */
  lemma BlockedSessionSigns()
    ensures exists acts, end ::
              && IsRun(Init(0, OLD, 2), acts, end)
              && end.fetches != [] && end.fetches[0].InFlight? && IsBlocked(end.w.coord, end.fetches[0].c.record)
  {
    hide Init, Apply, Enabled, TwoOnTheWay, IsBlocked;
    BothBegin();
    var more, end := RetryBlocked();
    RunAppend(Init(0, OLD, 2), [Begin(0, "ext", QUIET_ENV), Grant("g", [Granted("b", "y", Until(1000))], 0),
                                Begin(1, "ext", QUIET_ENV)], TwoOnTheWay(), more, end);
  }
}
