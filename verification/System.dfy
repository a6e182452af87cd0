/** The whole service as a transition system: any number of requests by any users, interleaved between
    their database awaits, over one credential table, with every peer, clock, key change, dropped request
    and user deletion the environment likes. A fetch is one step: it shares nothing with other requests,
    so where its own awaits fall among theirs makes no difference. */
module System {
  import opened Json
  import opened Urls
  import opened Validation
  import opened Cipher
  import opened Store
  import opened Transport
  import opened Tiles

  datatype Kind = TestConnection | Save | Settings | Dashboard

  /** The settings tab's view of a row. It has no field for the token. */
  datatype ReadModel = Unconfigured | Configured(host: string, testedAt: int)

  /** Why a settings request reads the row back. */
  datatype Why = ToShow | AfterInvalid(copy: Copy) | AfterRejected(outcome: TestOutcome) | AfterSaved

  datatype Reply =
    | ReauthRequired
    | InvalidTest(copy: Copy)
    | TestResult(outcome: TestOutcome)
    | SettingsFragment(why: Why, model: ReadModel)
    | TilesFragment(page: Page)
    | ServerError
    | Dropped

  /** Where a request stands between two awaits. */
  datatype Phase =
    | Arrived
    | Testing(host: string, token: string)
    | Saving(host: string, token: string)
    | Written(write: Write, key: Key)
    | Reading(why: Why)
    | Loaded(row: Row)
    | Finished(reply: Reply)

  datatype Request = Request(kind: Kind, user: UserId, host: string, token: string, session: Session, phase: Phase)

  type RequestId = nat

  /** What has happened, in order: the fetches that succeeded and the saves that were committed, each with
      the request that made it, and deletions. A save has what was submitted and the key that sealed it. */
  datatype Event =
    | FetchSucceeded(origin: RequestId, host: string, token: string)
    | Saved(origin: RequestId, submittedHost: string, submittedToken: string, key: Key, write: Write)
    | UserDeleted(user: UserId)

  /** How a commit ends. It may take effect although the caller never hears so: the connection is lost, or
      the request cancelled, after the database has committed. */
  datatype CommitEnd = Acknowledged | NotCommitted | CommittedButRaised | CommittedButCancelled

  datatype Sys = Sys(
    splitter: Splitter,
    users: set<UserId>,
    table: Table,
    key: Option<Key>,
    requests: map<RequestId, Request>,
    usedIds: set<RowId>,
    history: seq<Event>)

  datatype Action =
    | Arrive(r: RequestId, kind: Kind, who: Option<UserId>, host: string, token: string)
    | Begin(r: RequestId)
    | Fetch(r: RequestId, factory: Factory, now: int)
    | RunUpsert(r: RequestId, id: RowId, nonce: nat, testedAt: int, clock: int)
    | Commit(r: RequestId, end: CommitEnd)
    | Read(r: RequestId)
    | LoadRow(r: RequestId)
    | ShowTiles(r: RequestId, factory: Factory, now: int)
    | Drop(r: RequestId)
    | AddUser(user: UserId)
    | DeleteUser(user: UserId)
    | ChangeKey(newKey: Option<Key>)

  // ---------------------------------------------------------------- database semantics

  /** Some other open transaction has written this user's row, and so holds its lock. */
  ghost predicate LockedByOther(s: Sys, r: RequestId, user: UserId) {
    exists q :: q in s.requests && q != r && Has(s.requests[q].session.dirty, user)
  }

  ghost predicate Locked(s: Sys, user: UserId) {
    exists q :: q in s.requests && Has(s.requests[q].session.dirty, user)
  }

  function WithoutUser(t: Table, user: UserId): Table {
    map i | i in t && t[i].user != user :: t[i]
  }

  // ---------------------------------------------------------------- steps

  ghost predicate InPhase(s: Sys, r: RequestId, kinds: set<Kind>) {
    r in s.requests && s.requests[r].kind in kinds
  }

  /** Locks make steps wait; an id chosen for a new row is one never used before. */
  ghost predicate Enabled(s: Sys, a: Action) {
    match a
    case Arrive(r, _, _, _, _) => r !in s.requests
    case Begin(r) => InPhase(s, r, {TestConnection, Save, Settings}) && s.requests[r].phase.Arrived?
    case Fetch(r, _, _) => InPhase(s, r, {TestConnection, Save}) && s.requests[r].phase.Testing?
    case RunUpsert(r, id, _, _, _) =>
      && InPhase(s, r, {Save}) && s.requests[r].phase.Saving?
      && id !in s.usedIds && !LockedByOther(s, r, s.requests[r].user)
    case Commit(r, _) => InPhase(s, r, {Save}) && s.requests[r].phase.Written?
    case Read(r) => InPhase(s, r, {Save, Settings}) && s.requests[r].phase.Reading?
    case LoadRow(r) => InPhase(s, r, {Dashboard}) && s.requests[r].phase.Arrived?
    case ShowTiles(r, _, _) => InPhase(s, r, {Dashboard}) && s.requests[r].phase.Loaded?
    case Drop(r) => r in s.requests && !s.requests[r].phase.Finished?
    case AddUser(_) => true
    case DeleteUser(user) => !Locked(s, user)
    case ChangeKey(_) => true
  }

  /** What a step of one request does: where the request goes, what is logged, which id is used up. */
  datatype Move = Move(request: Request, events: seq<Event>, ids: set<RowId>)

  function Goto(q: Request, phase: Phase): Move {
    Move(q.(phase := phase), [], {})
  }

  /** Without a logged-in user a request is over at once. */
  function NewRequest(kind: Kind, who: Option<UserId>, host: string, token: string): Request {
    match who
    case None => Request(kind, 0, host, token, FRESH, Finished(ReauthRequired))
    case Some(user) => Request(kind, user, host, token, FRESH, Arrived)
  }

  /** A request ends: its session is closed and its transaction, if it is still open, rolled back. */
  function End(q: Request, reply: Reply): Move {
    Move(q.(session := SessionRollback(q.session), phase := Finished(reply)), [], {})
  }

  /** The form of a test or a save is validated; a settings read goes ahead. */
  function DoBegin(q: Request, splitter: Splitter): Move {
    if q.kind.Settings? then Goto(q, Reading(ToShow))
    else match ValidateForm(q.host, q.token, splitter)
      case Valid(host, token) => Goto(q, Testing(host, token))
      case Invalid(errors) =>
        var copy := ValidationErrorMessage(errors);
        if q.kind.Save? then Goto(q, Reading(AfterInvalid(copy))) else End(q, InvalidTest(copy))
  }

  ghost function DoFetch(r: RequestId, q: Request, factory: Factory, now: int): Move
    requires q.phase.Testing?
  {
    var outcome := RunTest(factory, q.phase.host, q.phase.token, now);
    var events := if outcome == TestOutcome.Success then [FetchSucceeded(r, q.phase.host, q.phase.token)] else [];
    if outcome.RequestCancelled? then End(q, Dropped)
    else if q.kind.TestConnection? then End(q, TestResult(outcome)).(events := events)
    else if outcome == TestOutcome.Success then Goto(q, Saving(q.phase.host, q.phase.token)).(events := events)
    else Goto(q, Reading(AfterRejected(outcome)))
  }

  /** The write a Save makes of its accepted form. */
  function WriteOf(q: Request, id: RowId, key: Key, nonce: nat, testedAt: int, clock: int): Write
    requires q.phase.Saving?
  {
    Write(id, q.user, q.phase.host, Encrypt(key, nonce, q.phase.token), testedAt, clock)
  }

  ghost function DoUpsert(s: Sys, q: Request, id: RowId, nonce: nat, testedAt: int, clock: int): Move
    requires q.phase.Saving?
  {
    if s.key.None? then End(q, ServerError)
    else
      var w := WriteOf(q, id, s.key.value, nonce, testedAt, clock);
      match SessionUpsert(q.session, s.table, s.users, w)
      case Error(_) => End(q, ServerError)
      case Success(session) => Move(q.(session := session, phase := Written(w, s.key.value)), [], {id})
  }

  function ModelOf(row: Option<Row>): ReadModel {
    if row.None? then Unconfigured else Configured(row.value.host, row.value.testedAt)
  }

  ghost function DoRead(q: Request, table: Table): Move
    requires q.phase.Reading?
  {
    End(q, SettingsFragment(q.phase.why, ModelOf(SessionGet(q.session, table, q.user).0)))
  }

  ghost function DoLoadRow(q: Request, table: Table): Move {
    match SessionGet(q.session, table, q.user).0
    case None => End(q, TilesFragment(NotConfigured))
    case Some(row) => Goto(q, Loaded(row))
  }

  /** An exception the tile route lets through becomes a server error; a cancelled one drops the request. */
  ghost function TilesReply(s: Sys, q: Request, factory: Factory, now: int): Reply
    requires q.phase.Loaded?
  {
    var page := TilesPage(Some(q.user), Some(q.phase.row), s.key, factory, s.splitter, now);
    if PageRaises(page) then ServerError else if page.PageCancelled? then Dropped else TilesFragment(page)
  }

  function Local(s: Sys, r: RequestId, m: Move): Sys {
    Sys(s.splitter, s.users, s.table, s.key, s.requests[r := m.request], s.usedIds + m.ids, s.history + m.events)
  }

  /** Where a request goes once its commit has taken effect. */
  function AfterCommit(q: Request, end: CommitEnd): Request
    requires !end.NotCommitted?
  {
    match end
    case Acknowledged => Goto(q, Reading(AfterSaved)).request
    case CommittedButRaised => End(q, ServerError).request
    case CommittedButCancelled => End(q, Dropped).request
  }

  ghost function CommitStep(s: Sys, r: RequestId, end: CommitEnd): Sys
    requires r in s.requests && s.requests[r].phase.Written? && !end.NotCommitted?
  {
    var q := s.requests[r];
    match SessionCommit(q.session, s.table)
    case Error(_) => Local(s, r, End(q, ServerError))
    case Success((table, session)) =>
      Sys(s.splitter, s.users, table, s.key, s.requests[r := AfterCommit(q.(session := session), end)],
          s.usedIds, s.history + [Saved(r, q.host, q.token, q.phase.key, q.phase.write)])
  }

  function DeleteStep(s: Sys, user: UserId): Sys {
    Sys(s.splitter, s.users - {user}, WithoutUser(s.table, user), s.key, s.requests, s.usedIds,
        s.history + [UserDeleted(user)])
  }

  ghost function Step(s: Sys, a: Action): Sys
    requires Enabled(s, a)
  {
    match a
    case Arrive(r, kind, who, host, token) =>
      Local(s, r, Move(NewRequest(kind, who, host, token), [], {}))
    case Begin(r) => Local(s, r, DoBegin(s.requests[r], s.splitter))
    case Fetch(r, factory, now) => Local(s, r, DoFetch(r, s.requests[r], factory, now))
    case RunUpsert(r, id, nonce, testedAt, clock) => Local(s, r, DoUpsert(s, s.requests[r], id, nonce, testedAt, clock))
    case Commit(r, end) =>
      if end.NotCommitted? then Local(s, r, End(s.requests[r], ServerError)) else CommitStep(s, r, end)
    case Read(r) => Local(s, r, DoRead(s.requests[r], s.table))
    case LoadRow(r) => Local(s, r, DoLoadRow(s.requests[r], s.table))
    case ShowTiles(r, factory, now) => Local(s, r, End(s.requests[r], TilesReply(s, s.requests[r], factory, now)))
    case Drop(r) => Local(s, r, End(s.requests[r], Dropped))
    case AddUser(user) => s.(users := s.users + {user})
    case DeleteUser(user) => DeleteStep(s, user)
    case ChangeKey(key) => s.(key := key)
  }

  function Start(splitter: Splitter, users: set<UserId>, key: Option<Key>): Sys {
    Sys(splitter, users, map[], key, map[], {}, [])
  }

  ghost predicate CanRun(s: Sys, actions: seq<Action>)
    decreases |actions|, 0
  {
    actions == [] ||
    (CanRun(s, actions[..|actions| - 1]) && Enabled(Exec(s, actions[..|actions| - 1]), actions[|actions| - 1]))
  }

  /** The state after a run. */
  ghost function Exec(s: Sys, actions: seq<Action>): Sys
    requires CanRun(s, actions)
    decreases |actions|, 1
  {
    if actions == [] then s else Step(Exec(s, actions[..|actions| - 1]), actions[|actions| - 1])
  }

  // ---------------------------------------------------------------- the serial reference

  /** One save, alone: a new session upserts and commits. */
  ghost function SerialSave(t: Table, w: Write): Table {
    match SessionUpsert(FRESH, t, {w.user}, w)
    case Error(_) => t
    case Success(session) =>
      match SessionCommit(session, t)
      case Error(_) => t
      case Success(done) => done.0
  }

  /** Running the committed saves one at a time in commit order, with the deletions between them. */
  ghost function Replay(history: seq<Event>): Table {
    if history == [] then map[]
    else
      var t := Replay(history[..|history| - 1]);
      match history[|history| - 1]
      case FetchSucceeded(_, _, _) => t
      case Saved(_, _, _, _, w) => SerialSave(t, w)
      case UserDeleted(user) => WithoutUser(t, user)
  }

  /** The user's last committed save that no deletion has followed. */
  function LastSave(history: seq<Event>, user: UserId): Option<Event> {
    if history == [] then None
    else
      match history[|history| - 1]
      case Saved(_, _, _, _, w) =>
        if w.user == user then Some(history[|history| - 1]) else LastSave(history[..|history| - 1], user)
      case UserDeleted(u) => if u == user then None else LastSave(history[..|history| - 1], user)
      case _ => LastSave(history[..|history| - 1], user)
  }
}
