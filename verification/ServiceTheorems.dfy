/** The guarantees of the service, for every run from an empty table: any requests by any users, any
    interleaving, any commits, failed commits and dropped requests, any peers, keys and deletions. */
module ServiceTheorems {
  import opened Json
  import opened Text
  import opened Urls
  import opened Validation
  import opened Cipher
  import opened Store
  import opened Transport
  import opened Tiles
  import opened System
  import opened SystemTheorems

  /** s is the state after some run. */
  ghost predicate Reachable(s: Sys) {
    exists splitter, users, key, actions ::
      CanRun(Start(splitter, users, key), actions) && s == Exec(Start(splitter, users, key), actions)
  }

  lemma ReachableIsOk(s: Sys)
    requires Reachable(s)
    ensures Inv(s)
  {
    var splitter, users, key, actions :|
      CanRun(Start(splitter, users, key), actions) && s == Exec(Start(splitter, users, key), actions);
    StartIsOk(splitter, users, key);
    EveryRunKeepsInv(Start(splitter, users, key), actions);
  }

  // ---------------------------------------------------------------- the store

  /** The committed table is always what the committed saves leave when run one at a time in commit order,
      and it holds at most one row per user. */
  lemma CommittedTableIsSerial(s: Sys)
    requires Reachable(s)
    ensures s.table == Replay(s.history) && Unique(s.table)
  {
    ReachableIsOk(s);
  }

  /** No upsert and no commit ever fails on uniqueness. An upsert fails only on a user deleted meanwhile,
      and an open write can always be committed. */
  lemma NoUniquenessErrors(s: Sys, r: RequestId, id: RowId, key: Key, nonce: nat, testedAt: int, clock: int)
    requires Reachable(s)
    ensures Enabled(s, RunUpsert(r, id, nonce, testedAt, clock)) ==>
      var q := s.requests[r];
      var result := SessionUpsert(q.session, s.table, s.users, WriteOf(q, id, key, nonce, testedAt, clock));
      if q.user in s.users then result.Success? else result == DbResult.Error(ForeignKeyViolation)
    ensures Enabled(s, Commit(r, Acknowledged)) ==> SessionCommit(s.requests[r].session, s.table).Success?
  {
    ReachableIsOk(s);
    hide ValidateHost;
    if Enabled(s, RunUpsert(r, id, nonce, testedAt, clock)) {
      var q := s.requests[r];
      assert RequestOk(s, r, q);
      UpsertNeverClashes(s, q, WriteOf(q, id, key, nonce, testedAt, clock));
    }
    if Enabled(s, Commit(r, Acknowledged)) {
      CommitSucceeds(s, r);
    }
  }

  /** The committed saves in a history, in order. */
  function Saves(history: seq<Event>): seq<Event> {
    if history == [] then []
    else Saves(history[..|history| - 1]) + if history[|history| - 1].Saved? then [history[|history| - 1]] else []
  }

  lemma SavesExtend(h: seq<Event>, events: seq<Event>)
    requires |events| <= 1
    ensures Saves(h + events) == Saves(h) + if events != [] && events[0].Saved? then events else []
  {
    if events == [] {
      assert h + events == h;
    } else {
      assert events == [events[0]];
      AppendEvent(h, events[0]);
    }
  }

  /** A commit takes effect, whether or not the request gets to know. */
  predicate TakesEffect(a: Action) {
    a.Commit? && !a.end.NotCommitted?
  }

  /** The save a step commits: the committing request's own submission, for its own user, with its open
      write and the key that write was sealed with. */
  ghost predicate Commits(s: Sys, a: Action, e: Event) {
    && TakesEffect(a) && Writes(s, a.r) && IsSaveOf(e, a.r, s.requests[a.r])
    && Written(e.write, e.key) == s.requests[a.r].phase
  }

  lemma CommitIsRecorded(s: Sys, r: RequestId, end: CommitEnd)
    requires Inv(s) && r in s.requests && s.requests[r].phase.Written? && !end.NotCommitted?
    ensures exists e :: Commits(s, Commit(r, end), e) && Saves(CommitStep(s, r, end).history) == Saves(s.history) + [e]
  {
    CommitSucceeds(s, r);
    hide Inv, ValidateHost;
    var q := s.requests[r];
    var e := Saved(r, q.host, q.token, q.phase.key, q.phase.write);
    SavesExtend(s.history, [e]);
    assert Commits(s, Commit(r, end), e);
  }

  /** The history gains a save exactly when a commit takes effect, and it is the committing request's own. */
  lemma HistoryRecordsCommits(s: Sys, a: Action)
    requires Reachable(s) && Enabled(s, a)
    ensures if TakesEffect(a)
            then exists e :: Commits(s, a, e) && Saves(Step(s, a).history) == Saves(s.history) + [e]
            else Saves(Step(s, a).history) == Saves(s.history)
  {
    hide Inv, Reachable, ValidateHost, RunTest, TilesPage, Saves;
    if TakesEffect(a) {
      ReachableIsOk(s);
      CommitIsRecorded(s, a.r, a.end);
    } else if a.DeleteUser? {
      SavesExtend(s.history, [UserDeleted(a.user)]);
    } else if a.Fetch? {
      SavesExtend(s.history, DoFetch(a.r, s.requests[a.r], a.factory, a.now).events);
    } else {
      SavesExtend(s.history, []);
    }
  }

  lemma TestedPairIsStripped(s: Sys, r: RequestId)
    requires Inv(s) && r in s.requests && s.requests[r].phase.Testing?
    ensures var q := s.requests[r]; q.phase.host == Strip(q.host) && q.phase.token == Strip(q.token)
  {
    assert RequestOk(s, r, s.requests[r]);
  }

  lemma OnlyFetchesLogFetches(s: Sys, a: Action, r: RequestId, host: string, token: string)
    requires Enabled(s, a) && !a.Fetch? && HasFetched(Step(s, a).history, r, host, token)
    ensures HasFetched(s.history, r, host, token)
  {
    hide ValidateForm, ValidationErrorMessage, SessionUpsert, SessionGet, SessionCommit, TilesReply;
    hide NewRequest, AfterCommit, WithoutUser, Locked, LockedByOther, WriteOf;
  }

  /** A fetch is logged only when one succeeds, by the request that made it and with its stripped pair. */
  lemma FetchesAreTheirRequests(s: Sys, a: Action, r: RequestId, host: string, token: string)
    requires Reachable(s) && Enabled(s, a)
    requires HasFetched(Step(s, a).history, r, host, token) && !HasFetched(s.history, r, host, token)
    ensures a.Fetch? && a.r == r && r in s.requests
    ensures host == Strip(s.requests[r].host) && token == Strip(s.requests[r].token)
    ensures RunTest(a.factory, host, token, a.now) == TestOutcome.Success
  {
    ReachableIsOk(s);
    hide Inv, Reachable, ValidateHost, RunTest;
    if a.Fetch? {
      TestedPairIsStripped(s, a.r);
      hide RequestOk;
    } else {
      hide Step, Enabled;
      OnlyFetchesLogFetches(s, a, r, host, token);
    }
  }

  /** An upsert writes the request's stripped submission for its own user, sealed with the key configured
      at that moment. It fails exactly when there is no key or the user has been deleted. */
  lemma UpsertSealsWithTheConfiguredKey(s: Sys, r: RequestId, id: RowId, nonce: nat, testedAt: int, clock: int)
    requires Reachable(s) && Enabled(s, RunUpsert(r, id, nonce, testedAt, clock))
    ensures var q := s.requests[r];
            var q' := Step(s, RunUpsert(r, id, nonce, testedAt, clock)).requests[r];
            if s.key.None? || q.user !in s.users then q'.phase == Finished(ServerError)
            else && q'.phase.Written? && s.key == Some(q'.phase.key)
                 && q'.phase.write.user == q.user && q'.phase.write.host == Strip(q.host)
                 && Decrypt(s.key.value, q'.phase.write.secret) == Some(Strip(q.token))
                 && q'.phase.write.testedAt == testedAt && q'.phase.write.clock == clock
  {
    ReachableIsOk(s);
    var q := s.requests[r];
    assert RequestOk(s, r, q);
    if s.key.Some? {
      UpsertNeverClashes(s, q, WriteOf(q, id, s.key.value, nonce, testedAt, clock));
    }
    hide Inv, Reachable, ValidateHost, References;
  }

  ghost predicate RowWrittenBy(row: Row, e: Event, before: seq<Event>, splitter: Splitter) {
    && e.Saved? && row.user == e.write.user && row.testedAt == e.write.testedAt && row.updatedAt == e.write.clock
    && row.host == Strip(e.submittedHost)
    && ValidateHost(row.host, splitter) == Urls.Ok(row.host)
    && Decrypt(e.key, row.secret) == Some(Strip(e.submittedToken))
    && HasFetched(before, e.origin, row.host, Strip(e.submittedToken))
  }

  /** The k-th event is the user's last save, and wrote the user's row. */
  ghost predicate WrittenAt(s: Sys, user: UserId, k: int)
    requires Has(s.table, user)
  {
    && 0 <= k < |s.history| && LastSave(s.history, user) == Some(s.history[k])
    && RowWrittenBy(s.table[RowOf(s.table, user)], s.history[k], s.history[..k], s.splitter)
  }

  /** A user has a row exactly when a committed save of theirs stands, and the row is that save's: the
      stripped submission, its host valid and its token sealed with the key the save recorded, with a
      fetch of that very pair that the saving request itself had made before. */
  lemma RowsAreTheLastSaves(s: Sys, user: UserId)
    requires Reachable(s)
    ensures Has(s.table, user) <==> LastSave(s.history, user).Some?
    ensures Has(s.table, user) ==> exists k :: WrittenAt(s, user, k)
  {
    ReachableIsOk(s);
    hide ValidateHost;
    if Has(s.table, user) {
      var row := s.table[RowOf(s.table, user)];
      assert IsLastSave(s.history, row);
      LastSaveIsIn(s.history, user);
      var e := LastSave(s.history, user).value;
      var k :| 0 <= k < |s.history| && s.history[k] == e;
      assert SavedOk(s.splitter, s.history[k], s.history[..k]);
      assert WrittenAt(s, user, k);
    }
  }

  /** A user's rows. */
  function RowsOf(t: Table, user: UserId): Table {
    map i | i in t && t[i].user == user :: t[i]
  }

  /** The two actions that may change a user's row: a commit of that user's save that takes effect,
      acknowledged or not, and deleting them. */
  ghost predicate Touches(s: Sys, a: Action, user: UserId) {
    || (TakesEffect(a) && a.r in s.requests && s.requests[a.r].user == user)
    || a == DeleteUser(user)
  }

  /** A commit that takes effect sets one row, which is new or was already the same user's. */
  lemma CommitSetsOneRow(s: Sys, r: RequestId, end: CommitEnd)
    requires Inv(s) && r in s.requests && s.requests[r].phase.Written? && !end.NotCommitted?
    ensures var w := s.requests[r].phase.write;
            && w.user == s.requests[r].user && UpsertRow(s.table, s.users, w).Success?
            && var id := UpsertRow(s.table, s.users, w).value;
               && CommitStep(s, r, end).table == s.table[id := RowFrom(w)]
               && (id in s.table ==> s.table[id].user == w.user)
  {
    CommitSucceeds(s, r);
    hide ValidateHost, SerialSave, Inv;
  }

  lemma CommitLeavesOthers(s: Sys, r: RequestId, end: CommitEnd, user: UserId)
    requires Inv(s) && r in s.requests && s.requests[r].phase.Written? && s.requests[r].user != user
    requires !end.NotCommitted?
    ensures RowsOf(CommitStep(s, r, end).table, user) == RowsOf(s.table, user)
  {
    CommitSetsOneRow(s, r, end);
    hide Inv, CommitStep, UpsertRow, Has;
  }

  /** Nothing else does: not Test Connection, not reading settings, not loading tiles, not a save that is
      refused or ends without its commit taking effect, and nothing any other user does. */
  lemma NothingElseTouchesARow(s: Sys, a: Action, user: UserId)
    requires Reachable(s) && Enabled(s, a) && !Touches(s, a, user)
    ensures RowsOf(Step(s, a).table, user) == RowsOf(s.table, user)
  {
    ReachableIsOk(s);
    hide Inv, ValidateHost;
    if TakesEffect(a) {
      CommitLeavesOthers(s, a.r, a.end, user);
    } else if a.DeleteUser? {
      assert RowsOf(WithoutUser(s.table, a.user), user) == RowsOf(s.table, user);
    } else {
      assert Step(s, a).table == s.table;
    }
  }

  lemma RowIs(s: Sys, i: RowId, user: UserId)
    requires Inv(s) && i in s.table && s.table[i].user == user
    ensures Has(s.table, user) && RowOf(s.table, user) == i
  {
  }

  lemma CommitKeepsRowAt(s: Sys, r: RequestId, end: CommitEnd, i: RowId)
    requires Inv(s) && r in s.requests && s.requests[r].phase.Written? && i in s.table && !end.NotCommitted?
    ensures i in CommitStep(s, r, end).table && CommitStep(s, r, end).table[i].user == s.table[i].user
  {
    CommitSetsOneRow(s, r, end);
    hide Inv, CommitStep, UpsertRow, Has;
  }

  lemma CommitKeepsId(s: Sys, r: RequestId, end: CommitEnd, user: UserId)
    requires Inv(s) && r in s.requests && s.requests[r].phase.Written? && Has(s.table, user) && !end.NotCommitted?
    ensures Has(CommitStep(s, r, end).table, user)
    ensures RowOf(CommitStep(s, r, end).table, user) == RowOf(s.table, user)
  {
    hide Inv, CommitStep;
    var i := RowOf(s.table, user);
    CommitKeepsRowAt(s, r, end, i);
    CommitKeepsInv(s, r, end);
    RowIs(CommitStep(s, r, end), i, user);
  }

  lemma StepKeepsId(s: Sys, a: Action, user: UserId)
    requires Inv(s) && Enabled(s, a) && Has(s.table, user) && a != DeleteUser(user)
    ensures Has(Step(s, a).table, user) && RowOf(Step(s, a).table, user) == RowOf(s.table, user)
  {
    StepKeepsInv(s, a);
    hide ValidateHost;
    var i := RowOf(s.table, user);
    if TakesEffect(a) {
      CommitKeepsId(s, a.r, a.end, user);
    } else if a.DeleteUser? {
      DeletedTableOk(s, a.user);
      assert i in Step(s, a).table && Step(s, a).table[i].user == user;
    } else {
      assert Step(s, a).table == s.table;
    }
  }

  lemma {:induction false} RunKeepsId(s: Sys, actions: seq<Action>, user: UserId)
    requires Inv(s) && CanRun(s, actions) && Has(s.table, user) && DeleteUser(user) !in actions
    ensures Has(Exec(s, actions).table, user) && RowOf(Exec(s, actions).table, user) == RowOf(s.table, user)
    decreases |actions|
  {
    if actions == [] {
    } else {
      var earlier := actions[..|actions| - 1];
      RunKeepsId(s, earlier, user);
      EveryRunKeepsInv(s, earlier);
      StepKeepsId(Exec(s, earlier), actions[|actions| - 1], user);
    }
  }

  /** Once a user has a row, they keep a row with that very id through any run that does not delete them. */
  lemma RowIdsAreStable(s: Sys, actions: seq<Action>, user: UserId)
    requires Reachable(s) && CanRun(s, actions) && Has(s.table, user) && DeleteUser(user) !in actions
    ensures Has(Exec(s, actions).table, user) && RowOf(Exec(s, actions).table, user) == RowOf(s.table, user)
  {
    ReachableIsOk(s);
    RunKeepsId(s, actions, user);
  }

  // ---------------------------------------------------------------- the replies

  /** With a cipher key configured, whichever key, showing tiles ends in one of the documented states or
      in the request being cancelled; no exception gets through. */
  lemma TilesNeverRaise(s: Sys, r: RequestId, factory: Factory, now: int)
    requires Reachable(s) && s.key.Some? && Enabled(s, ShowTiles(r, factory, now))
    ensures var q := s.requests[r];
            var page := TilesPage(Some(q.user), Some(q.phase.row), s.key, factory, s.splitter, now);
            && (page.ShowsTiles? || page == ShowsAuthFailure || page == ShowsGenericFailure || page == PageCancelled)
            && TilesReply(s, q, factory, now) == (if page == PageCancelled then Dropped else TilesFragment(page))
  {
    ReachableIsOk(s);
    var q := s.requests[r];
    assert RequestOk(s, r, q);
    PageExactly(Some(q.user), Some(q.phase.row), s.key.value, factory, s.splitter, now);
    hide ValidateHost, Inv;
  }

  /** Reading back now ends the request with exactly this row. */
  ghost predicate ShowsCommittedRow(s: Sys, r: RequestId)
    requires Enabled(s, Read(r))
  {
    var q := s.requests[r];
    && Step(s, Read(r)).table == s.table
    && Step(s, Read(r)).requests[r].phase
       == Finished(SettingsFragment(q.phase.why,
            if !Has(s.table, q.user) then Unconfigured
            else var row := s.table[RowOf(s.table, q.user)]; Configured(row.host, row.testedAt)))
  }

  lemma ReadShows(s: Sys, r: RequestId)
    requires Inv(s) && Enabled(s, Read(r))
    ensures ShowsCommittedRow(s, r)
  {
    var q := s.requests[r];
    assert RequestOk(s, r, q);
    hide ValidateHost, Inv;
    CleanSessionSees(q.session, s.table);
  }

  /** Every settings reply shows the user's own committed row as it is when it is read, never a cached one. */
  lemma ReadsShowTheCommittedRow(s: Sys, r: RequestId)
    requires Reachable(s) && Enabled(s, Read(r))
    ensures ShowsCommittedRow(s, r)
  {
    ReachableIsOk(s);
    ReadShows(s, r);
  }

  /** A save reports success only after its own submission has been committed for its own user. */
  lemma SuccessMeansCommitted(s: Sys, r: RequestId, model: ReadModel)
    requires Reachable(s) && r in s.requests && s.requests[r].phase == Finished(SettingsFragment(AfterSaved, model))
    ensures exists e :: e in s.history && IsSaveOf(e, r, s.requests[r])
  {
    ReachableIsOk(s);
    assert RequestOk(s, r, s.requests[r]);
  }

  // ---------------------------------------------------------------- what the dashboard shows

  /** The dashboard loads the requesting user's own committed row, or shows there is none. */
  lemma LoadsTheUsersOwnRow(s: Sys, r: RequestId)
    requires Reachable(s) && Enabled(s, LoadRow(r))
    ensures var q := s.requests[r];
            Step(s, LoadRow(r)).requests[r].phase
            == if Has(s.table, q.user) then Loaded(s.table[RowOf(s.table, q.user)])
               else Finished(TilesFragment(NotConfigured))
  {
    ReachableIsOk(s);
    var q := s.requests[r];
    assert RequestOk(s, r, q);
    hide ValidateHost, Inv, Reachable;
    CleanSessionSees(q.session, s.table);
  }

  /** The actions of one request. */
  predicate ActsFor(a: Action, r: RequestId) {
    !a.AddUser? && !a.DeleteUser? && !a.ChangeKey? && a.r == r
  }

  lemma StepLeavesRequest(s: Sys, a: Action, r: RequestId)
    requires r in s.requests && Enabled(s, a) && !ActsFor(a, r)
    ensures r in Step(s, a).requests && Step(s, a).requests[r] == s.requests[r]
    ensures Step(s, a).splitter == s.splitter
  {
    hide SessionCommit, DoBegin, DoFetch, DoUpsert, DoRead, DoLoadRow, TilesReply, NewRequest, AfterCommit, WithoutUser;
  }

  /** A request stands still while only others act. */
  lemma {:induction false} RunLeavesRequest(s: Sys, actions: seq<Action>, r: RequestId)
    requires r in s.requests && CanRun(s, actions) && (forall a :: a in actions ==> !ActsFor(a, r))
    ensures r in Exec(s, actions).requests && Exec(s, actions).requests[r] == s.requests[r]
    ensures Exec(s, actions).splitter == s.splitter
    decreases |actions|
  {
    hide Step, Enabled;
    if actions == [] {
    } else {
      var earlier := actions[..|actions| - 1];
      RunLeavesRequest(s, earlier, r);
      StepLeavesRequest(Exec(s, earlier), actions[|actions| - 1], r);
    }
  }

  /** What the dashboard must reply for a user whose last save this is: exactly how a fetch with the saved
      pair ends now, as long as the key that sealed it is configured. When it brings a summary, that is the
      tiles of what the peer at the saved host has just sent, linking back to that host. */
  ghost predicate RepliesFor(reply: Reply, e: Event, s: Sys, factory: Factory, now: int)
    requires e.Saved?
  {
    var host, token := Strip(e.submittedHost), Strip(e.submittedToken);
    match s.key
    case None => reply == ServerError
    case Some(key) =>
      if key != e.key then reply == TilesFragment(ShowsGenericFailure)
      else
        match Client.FetchOutcome(factory(host), token, now)
        case AuthFailed => reply == TilesFragment(ShowsAuthFailure)
        case ConnectionFailed => reply == TilesFragment(ShowsGenericFailure)
        case Aborted => reply == Dropped
        case Fetched(_) =>
          && reply.TilesFragment? && reply.page.ShowsTiles? && reply.page.fetchedAt == now
          && factory(host).Connected? && ScreenShows(reply.page.tiles, factory(host).peer)
          && LinksLeadTo(reply.page.tiles, host, s.splitter)
  }

  lemma TilesUnderAnotherKey(s: Sys, q: Request, sealer: Key, factory: Factory, now: int)
    requires q.phase.Loaded? && Decrypt(sealer, q.phase.row.secret).Some? && s.key != Some(sealer)
    ensures TilesReply(s, q, factory, now)
         == if s.key.None? then ServerError else TilesFragment(ShowsGenericFailure)
  {
    hide BuildTiles, RunTest;
  }

  lemma TilesUnderTheSameKey(s: Sys, q: Request, key: Key, token: string, factory: Factory, now: int)
    requires q.phase.Loaded? && s.key == Some(key) && Decrypt(key, q.phase.row.secret) == Some(token)
    requires ValidateHost(q.phase.row.host, s.splitter) == Urls.Ok(q.phase.row.host)
    ensures var page := TilesPage(Some(q.user), Some(q.phase.row), s.key, factory, s.splitter, now);
            && Agrees(RunTest(factory, q.phase.row.host, token, now), page)
            && TilesReply(s, q, factory, now) == (if page == PageCancelled then Dropped else TilesFragment(page))
            && (page.ShowsTiles? ==>
                  && page.fetchedAt == now && factory(q.phase.row.host).Connected?
                  && ScreenShows(page.tiles, factory(q.phase.row.host).peer)
                  && LinksLeadTo(page.tiles, q.phase.row.host, s.splitter))
  {
    hide ScreenShows, LinksLeadTo, ValidateHost, TilesPage, RunTest;
    var row := q.phase.row;
    TestAndTilesAgree(q.user, row, key, row.secret.nonce, token, factory, s.splitter, now);
    if TilesPage(Some(q.user), Some(row), s.key, factory, s.splitter, now).ShowsTiles? {
      PageShowsFetchedTiles(q.user, row, key, factory, s.splitter, now);
    }
  }

  lemma TilesOfASave(s: Sys, q: Request, e: Event, factory: Factory, now: int)
    requires q.phase.Loaded? && Wrote(s.splitter, e, q.user, q.phase.row)
    ensures RepliesFor(TilesReply(s, q, factory, now), e, s, factory, now)
  {
    hide ScreenShows, LinksLeadTo, ValidateHost, TilesPage, Client.FetchOutcome, TilesReply;
    if s.key == Some(e.key) {
      TilesUnderTheSameKey(s, q, e.key, Strip(e.submittedToken), factory, now);
    } else {
      TilesUnderAnotherKey(s, q, e.key, factory, now);
    }
  }

  lemma LoadKeepsTheRest(s: Sys, r: RequestId)
    requires Enabled(s, LoadRow(r))
    ensures var s' := Step(s, LoadRow(r));
            && r in s'.requests && s'.requests[r].kind == Dashboard && s'.requests[r].user == s.requests[r].user
            && s'.splitter == s.splitter
  {
    hide SessionGet;
  }

  lemma LoadsTheLastSave(s: Sys, r: RequestId)
    requires Reachable(s) && Enabled(s, LoadRow(r)) && Has(s.table, s.requests[r].user)
    ensures var last := LastSave(s.history, s.requests[r].user);
            var s' := Step(s, LoadRow(r));
            && last.Some? && last.value.Saved? && s'.splitter == s.splitter
            && r in s'.requests && s'.requests[r].kind == Dashboard && s'.requests[r].phase.Loaded?
            && Wrote(s'.splitter, last.value, s'.requests[r].user, s'.requests[r].phase.row)
  {
    LoadsTheUsersOwnRow(s, r);
    LoadKeepsTheRest(s, r);
    ReachableIsOk(s);
    RowIsLastSave(s, s.requests[r].user);
    hide Reachable, Inv, Step, ValidateHost, LastSave;
  }

  lemma ShowingEnds(s: Sys, r: RequestId, factory: Factory, now: int)
    requires Enabled(s, ShowTiles(r, factory, now))
    ensures Step(s, ShowTiles(r, factory, now)).requests[r].phase
         == Finished(TilesReply(s, s.requests[r], factory, now))
  {
    hide TilesReply;
  }

  /** From the row to the screen: once the dashboard has loaded a row, then whatever everybody else does
      before it fetches and replies, its reply is the one due for the user's last save at the time of
      loading. */
  lemma DashboardShowsTheLastSave(s: Sys, r: RequestId, others: seq<Action>, factory: Factory, now: int)
    requires Reachable(s) && Enabled(s, LoadRow(r)) && Has(s.table, s.requests[r].user)
    requires CanRun(Step(s, LoadRow(r)), others) && (forall a :: a in others ==> !ActsFor(a, r))
    ensures LastSave(s.history, s.requests[r].user).Some?
    ensures LastSave(s.history, s.requests[r].user).value.Saved?
    ensures var s' := Exec(Step(s, LoadRow(r)), others);
            && Enabled(s', ShowTiles(r, factory, now))
            && var phase := Step(s', ShowTiles(r, factory, now)).requests[r].phase;
               phase.Finished?
               && RepliesFor(phase.reply, LastSave(s.history, s.requests[r].user).value, s', factory, now)
  {
    hide Reachable, Inv, Wrote, RepliesFor, TilesReply, Has, RowOf, LastSave, CanRun, Exec, Step;
    LoadsTheLastSave(s, r);
    RunLeavesRequest(Step(s, LoadRow(r)), others, r);
    var s' := Exec(Step(s, LoadRow(r)), others);
    TilesOfASave(s', s'.requests[r], LastSave(s.history, s.requests[r].user).value, factory, now);
    ShowingEnds(s', r, factory, now);
  }

  // ---------------------------------------------------------------- an undisturbed save

  lemma RunExtends(s: Sys, actions: seq<Action>, a: Action)
    requires CanRun(s, actions) && Enabled(Exec(s, actions), a)
    ensures CanRun(s, actions + [a]) && Exec(s, actions + [a]) == Step(Exec(s, actions), a)
  {
    assert (actions + [a])[..|actions + [a]| - 1] == actions;
  }

  /** Arriving, being validated and fetching with success brings a save to its upsert. */
  lemma SaveReachesItsUpsert(s: Sys, r: RequestId, user: UserId, host: string, token: string,
                             factory: Factory, now: int)
    requires r !in s.requests
    requires ValidateForm(host, token, s.splitter) == Valid(Strip(host), Strip(token))
    requires RunTest(factory, Strip(host), Strip(token), now) == TestOutcome.Success
    ensures var actions := [Arrive(r, Save, Some(user), host, token), Begin(r), Fetch(r, factory, now)];
            var q := Request(Save, user, host, token, FRESH, Saving(Strip(host), Strip(token)));
            CanRun(s, actions)
            && Exec(s, actions) == Sys(s.splitter, s.users, s.table, s.key, s.requests[r := q], s.usedIds,
                                       s.history + [FetchSucceeded(r, Strip(host), Strip(token))])
  {
    hide ValidateForm, RunTest;
    var arrive, begin, fetch := Arrive(r, Save, Some(user), host, token), Begin(r), Fetch(r, factory, now);
    assert CanRun(s, []) && Exec(s, []) == s;
    RunExtends(s, [], arrive);
    assert [] + [arrive] == [arrive];
    RunExtends(s, [arrive], begin);
    assert [arrive] + [begin] == [arrive, begin];
    RunExtends(s, [arrive, begin], fetch);
    assert [arrive, begin] + [fetch] == [arrive, begin, fetch];
    var events := [FetchSucceeded(r, Strip(host), Strip(token))];
    assert s.history + [] + [] + events == s.history + events;
    assert s.usedIds + {} + {} + {} == s.usedIds;
  }

  lemma UpsertWrites(s: Sys, r: RequestId, id: RowId, nonce: nat, testedAt: int, clock: int)
    requires Inv(s) && Enabled(s, RunUpsert(r, id, nonce, testedAt, clock))
    requires s.key.Some? && s.requests[r].user in s.users
    ensures var s1 := Step(s, RunUpsert(r, id, nonce, testedAt, clock));
            && r in s1.requests && s1.requests[r].kind == Save && s1.requests[r].user == s.requests[r].user
            && s1.requests[r].phase.Written?
            && s1.requests[r].phase.write == WriteOf(s.requests[r], id, s.key.value, nonce, testedAt, clock)
  {
    var q := s.requests[r];
    assert RequestOk(s, r, q);
    UpsertNeverClashes(s, q, WriteOf(q, id, s.key.value, nonce, testedAt, clock));
    hide Inv, ValidateHost;
  }

  /** A save's write has been committed: its request is about to read it back. */
  ghost predicate Published(s: Sys, r: RequestId, w: Write) {
    && Inv(s) && r in s.requests && s.requests[r].kind == Save && s.requests[r].phase == Reading(AfterSaved)
    && s.requests[r].user == w.user
    && Has(s.table, w.user) && s.table[RowOf(s.table, w.user)] == RowFrom(w)
  }

  lemma CommitPublishes(s: Sys, r: RequestId)
    requires Inv(s) && r in s.requests && s.requests[r].kind == Save && s.requests[r].phase.Written?
    ensures Published(CommitStep(s, r, Acknowledged), r, s.requests[r].phase.write)
  {
    CommitKeepsInv(s, r, Acknowledged);
    CommitSetsOneRow(s, r, Acknowledged);
    CommitSucceeds(s, r);
    hide ValidateHost, SerialSave, Inv;
    var w := s.requests[r].phase.write;
    var i := UpsertRow(s.table, s.users, w).value;
    RowIs(CommitStep(s, r, Acknowledged), i, w.user);
  }

  lemma CommitLeadsToRead(s: Sys, r: RequestId)
    requires r in s.requests && s.requests[r].kind == Save && s.requests[r].phase.Written?
    requires Published(CommitStep(s, r, Acknowledged), r, s.requests[r].phase.write)
    ensures Enabled(s, Commit(r, Acknowledged))
    ensures var s' := Step(s, Commit(r, Acknowledged));
            Published(s', r, s.requests[r].phase.write) && Enabled(s', Read(r))
  {
    hide Inv, CommitStep, RowOf;
  }

  /** The request has ended showing this write as saved, and the user's row is exactly it. */
  ghost predicate SavedAndShown(s: Sys, r: RequestId, w: Write) {
    && r in s.requests && s.requests[r].phase == Finished(SettingsFragment(AfterSaved, Configured(w.host, w.testedAt)))
    && Has(s.table, w.user) && s.table[RowOf(s.table, w.user)] == RowFrom(w)
  }

  lemma ReadFinishes(s: Sys, r: RequestId, w: Write)
    requires Published(s, r, w) && Enabled(s, Read(r))
    ensures SavedAndShown(Step(s, Read(r)), r, w)
  {
    ReadShows(s, r);
    hide Inv;
  }

  lemma ThreeSteps(s: Sys, a: Action, b: Action, c: Action)
    requires Enabled(s, a) && Enabled(Step(s, a), b) && Enabled(Step(Step(s, a), b), c)
    ensures CanRun(s, [a, b, c]) && Exec(s, [a, b, c]) == Step(Step(Step(s, a), b), c)
  {
    hide Enabled, Step;
    assert CanRun(s, []) && Exec(s, []) == s;
    RunExtends(s, [], a);
    assert [] + [a] == [a];
    RunExtends(s, [a], b);
    assert [a] + [b] == [a, b];
    RunExtends(s, [a, b], c);
    assert [a, b] + [c] == [a, b, c];
  }

  /** From its upsert on, a save that meets no obstacle is committed and read back. */
  lemma UpsertCommitRead(s: Sys, r: RequestId, id: RowId, nonce: nat, testedAt: int, clock: int)
    requires Inv(s) && Enabled(s, RunUpsert(r, id, nonce, testedAt, clock))
    requires s.key.Some? && s.requests[r].user in s.users
    ensures var actions := [RunUpsert(r, id, nonce, testedAt, clock), Commit(r, Acknowledged), Read(r)];
            && CanRun(s, actions)
            && SavedAndShown(Exec(s, actions), r, WriteOf(s.requests[r], id, s.key.value, nonce, testedAt, clock))
  {
    var upsert := RunUpsert(r, id, nonce, testedAt, clock);
    StepKeepsInv(s, upsert);
    UpsertWrites(s, r, id, nonce, testedAt, clock);
    hide Inv, ValidateHost, Step, CanRun, Exec, SavedAndShown, Published, CommitStep, Has, RowOf, WriteOf;
    var w := Step(s, upsert).requests[r].phase.write;
    CommitPublishes(Step(s, upsert), r);
    CommitLeadsToRead(Step(s, upsert), r);
    ReadFinishes(Step(Step(s, upsert), Commit(r, Acknowledged)), r, w);
    ThreeSteps(s, upsert, Commit(r, Acknowledged), Read(r));
  }

  lemma {:induction false} RunsCompose(s: Sys, first: seq<Action>, second: seq<Action>)
    requires CanRun(s, first) && CanRun(Exec(s, first), second)
    ensures CanRun(s, first + second) && Exec(s, first + second) == Exec(Exec(s, first), second)
    decreases |second|
  {
    hide Step, Enabled;
    if second == [] {
      assert first + second == first;
    } else {
      var init, last := second[..|second| - 1], second[|second| - 1];
      RunsCompose(s, first, init);
      RunExtends(s, first + init, last);
      assert first + second == first + init + [last];
    }
  }

  /** Some run of s ends with this write stored and shown as saved. */
  ghost predicate CanSave(s: Sys, r: RequestId, w: Write) {
    exists actions :: CanRun(s, actions) && SavedAndShown(Exec(s, actions), r, w)
  }

  lemma ReadyToUpsert(s: Sys, s': Sys, r: RequestId, user: UserId, id: RowId, nonce: nat, testedAt: int, clock: int)
    requires !Locked(s, user) && id !in s.usedIds && s'.usedIds == s.usedIds
    requires r in s'.requests && s'.requests == s.requests[r := s'.requests[r]]
    requires var q := s'.requests[r]; q.kind == Save && q.user == user && q.phase.Saving?
    ensures Enabled(s', RunUpsert(r, id, nonce, testedAt, clock))
  {
    assert forall q :: q in s'.requests && q != r ==> s'.requests[q] == s.requests[q];
  }

  /** This request of this user is free to upsert, and w is what it would write. */
  ghost predicate AboutToWrite(s: Sys, r: RequestId, w: Write, nonce: nat) {
    && Inv(s) && s.key.Some? && w.user in s.users
    && r in s.requests && s.requests[r].user == w.user && s.requests[r].phase.Saving?
    && Enabled(s, RunUpsert(r, w.id, nonce, w.testedAt, w.clock))
    && w == WriteOf(s.requests[r], w.id, s.key.value, nonce, w.testedAt, w.clock)
  }

  lemma ArrivesAtItsUpsert(s: Sys, r: RequestId, user: UserId, host: string, token: string, factory: Factory,
                           now: int, id: RowId, nonce: nat, testedAt: int, clock: int)
    requires Inv(s) && r !in s.requests && user in s.users && !Locked(s, user)
    requires id !in s.usedIds && s.key.Some?
    requires ValidateForm(host, token, s.splitter) == Valid(Strip(host), Strip(token))
    requires RunTest(factory, Strip(host), Strip(token), now) == TestOutcome.Success
    ensures var start := [Arrive(r, Save, Some(user), host, token), Begin(r), Fetch(r, factory, now)];
            var w := Write(id, user, Strip(host), Encrypt(s.key.value, nonce, Strip(token)), testedAt, clock);
            CanRun(s, start) && AboutToWrite(Exec(s, start), r, w, nonce)
  {
    hide ValidateForm, RunTest, Inv, CanRun, Exec, Step;
    SaveReachesItsUpsert(s, r, user, host, token, factory, now);
    var start := [Arrive(r, Save, Some(user), host, token), Begin(r), Fetch(r, factory, now)];
    EveryRunKeepsInv(s, start);
    ReadyToUpsert(s, Exec(s, start), r, user, id, nonce, testedAt, clock);
  }

  /** A save nobody disturbs goes through: if the form is valid, the fetch succeeds, a key is configured and
      the user exists and is not locked, there is a run that ends with the stripped pair stored, sealed with
      that key, and shown as saved. */
  lemma UndisturbedSaveSucceeds(s: Sys, r: RequestId, user: UserId, host: string, token: string, factory: Factory,
                                now: int, id: RowId, nonce: nat, testedAt: int, clock: int)
    requires Reachable(s) && r !in s.requests && user in s.users && !Locked(s, user)
    requires id !in s.usedIds && s.key.Some?
    requires ValidateForm(host, token, s.splitter).Valid?
    requires RunTest(factory, Strip(host), Strip(token), now) == TestOutcome.Success
    ensures CanSave(s, r, Write(id, user, Strip(host), Encrypt(s.key.value, nonce, Strip(token)), testedAt, clock))
  {
    hide Inv, Reachable, CanRun, Exec, Step, SavedAndShown, Enabled, Locked;
    hide RunTest, WriteOf, ValidateForm, ValidateHost;
    ReachableIsOk(s);
    AcceptedFormsAreFixedPoints(host, token, s.splitter);
    ArrivesAtItsUpsert(s, r, user, host, token, factory, now, id, nonce, testedAt, clock);
    var start := [Arrive(r, Save, Some(user), host, token), Begin(r), Fetch(r, factory, now)];
    UpsertCommitRead(Exec(s, start), r, id, nonce, testedAt, clock);
    RunsCompose(s, start, [RunUpsert(r, id, nonce, testedAt, clock), Commit(r, Acknowledged), Read(r)]);
  }
}
