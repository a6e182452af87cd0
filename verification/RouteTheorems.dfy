/** What the routes answer, branch by branch and over whole runs: who may act, what each submitted form and
    each fetch leads to, and that nobody waits for ever. */
module RouteTheorems {
  import opened Json
  import opened Text
  import opened Urls
  import opened Validation
  import opened Hosts
  import opened Cipher
  import opened Store
  import opened Transport
  import opened Tiles
  import opened System
  import opened SystemTheorems
  import opened ServiceTheorems

  // ---------------------------------------------------------------- who may act

  /** A request of a logged-in user starts as theirs; one without a user has its answer at once. Nothing
      else changes. */
  lemma ArrivalExactly(s: Sys, r: RequestId, kind: Kind, who: Option<UserId>, host: string, token: string)
    requires Enabled(s, Arrive(r, kind, who, host, token))
    ensures var s' := Step(s, Arrive(r, kind, who, host, token));
            && s' == s.(requests := s'.requests) && s'.requests.Keys == s.requests.Keys + {r}
            && (forall p :: p in s.requests ==> s'.requests[p] == s.requests[p])
            && var q := s'.requests[r];
               && q.kind == kind && q.host == host && q.token == token && q.session == Session(map[], map[])
               && match who
                  case None => q.phase == Finished(ReauthRequired)
                  case Some(user) => q.user == user && q.phase == Arrived
  {
  }

  /** No step changes whose request it is or what was submitted, and a finished request stays as it is. */
  lemma StepKeepsIdentity(s: Sys, a: Action, r: RequestId)
    requires r in s.requests && Enabled(s, a)
    ensures r in Step(s, a).requests
    ensures var (q, q') := (s.requests[r], Step(s, a).requests[r]);
            && q'.kind == q.kind && q'.user == q.user && q'.host == q.host && q'.token == q.token
            && (q.phase.Finished? ==> q' == q)
  {
    hide ValidateForm, ValidationErrorMessage, RunTest, SessionUpsert, SessionGet, SessionCommit, TilesReply;
    hide WithoutUser, Locked, LockedByOther, WriteOf;
  }

  /** This request came from its user, logged in, with what it holds. */
  ghost predicate CameFrom(actions: seq<Action>, r: RequestId, q: Request) {
    Arrive(r, q.kind, Some(q.user), q.host, q.token) in actions
  }

  lemma NewRequestsArrive(s: Sys, a: Action, r: RequestId)
    requires Enabled(s, a) && r in Step(s, a).requests && r !in s.requests
    ensures a.Arrive? && a.r == r
  {
    hide SessionCommit, DoBegin, DoFetch, DoUpsert, DoRead, DoLoadRow, TilesReply, AfterCommit, WithoutUser;
  }

  lemma StepKeepsOrigin(s: Sys, actions: seq<Action>, a: Action, r: RequestId)
    requires Enabled(s, a) && r in Step(s, a).requests
    requires r in s.requests ==> s.requests[r].phase == Finished(ReauthRequired) || CameFrom(actions, r, s.requests[r])
    ensures var q := Step(s, a).requests[r];
            q.phase == Finished(ReauthRequired) || CameFrom(actions + [a], r, q)
  {
    if r in s.requests {
      StepKeepsIdentity(s, a, r);
      hide Step;
    } else {
      NewRequestsArrive(s, a, r);
      ArrivalExactly(s, a.r, a.kind, a.who, a.host, a.token);
      hide Step;
    }
  }

  /** In any run, every request still open or answered otherwise than by asking for a login came from its
      user, logged in. */
  lemma {:induction false} RequestsCameFromTheirUsers(splitter: Splitter, users: set<UserId>, key: Option<Key>,
                                                      actions: seq<Action>, r: RequestId)
    requires CanRun(Start(splitter, users, key), actions)
    requires r in Exec(Start(splitter, users, key), actions).requests
    ensures var q := Exec(Start(splitter, users, key), actions).requests[r];
            q.phase == Finished(ReauthRequired) || CameFrom(actions, r, q)
    decreases |actions|
  {
    hide Step, Enabled, CameFrom;
    if actions == [] {
    } else {
      var earlier, last := actions[..|actions| - 1], actions[|actions| - 1];
      var s := Exec(Start(splitter, users, key), earlier);
      if r in s.requests {
        RequestsCameFromTheirUsers(splitter, users, key, earlier, r);
      }
      StepKeepsOrigin(s, earlier, last, r);
      assert actions == earlier + [last];
    }
  }

  /** In any run, a user's row changes only when the user is deleted, or when a save takes effect that
      this very user submitted, logged in. */
  lemma OnlyOwnSavesChangeARow(splitter: Splitter, users: set<UserId>, key: Option<Key>, actions: seq<Action>,
                               a: Action, user: UserId)
    requires CanRun(Start(splitter, users, key), actions) && Enabled(Exec(Start(splitter, users, key), actions), a)
    requires var s := Exec(Start(splitter, users, key), actions);
             RowsOf(Step(s, a).table, user) != RowsOf(s.table, user)
    ensures || a == DeleteUser(user)
            || (&& TakesEffect(a)
                && exists host, token :: Arrive(a.r, Save, Some(user), host, token) in actions)
  {
    var s := Exec(Start(splitter, users, key), actions);
    assert Reachable(s);
    if !Touches(s, a, user) {
      NothingElseTouchesARow(s, a, user);
    } else if a != DeleteUser(user) {
      RequestsCameFromTheirUsers(splitter, users, key, actions, a.r);
    }
    hide Step, Reachable, CanRun, Exec, Inv;
  }

  lemma OnlyCommitsLogSaves(s: Sys, a: Action, e: Event)
    requires Enabled(s, a) && !TakesEffect(a) && e.Saved? && e in Step(s, a).history
    ensures e in s.history
  {
    hide ValidateForm, ValidationErrorMessage, RunTest, SessionUpsert, SessionGet, SessionCommit, TilesReply;
    hide NewRequest, AfterCommit, WithoutUser, Locked, LockedByOther, WriteOf;
  }

  lemma CommitLogsItsSave(s: Sys, r: RequestId, end: CommitEnd, e: Event)
    requires Inv(s) && r in s.requests && s.requests[r].phase.Written? && !end.NotCommitted?
    requires e in CommitStep(s, r, end).history && e !in s.history
    ensures IsSaveOf(e, r, s.requests[r])
  {
    CommitSucceeds(s, r);
    hide Inv, ValidateHost, SerialSave, HasFetched, UpsertRow;
  }

  lemma StepKeepsSavers(s: Sys, actions: seq<Action>, a: Action, e: Event)
    requires Inv(s) && Enabled(s, a) && e in Step(s, a).history && e !in s.history && e.Saved?
    ensures TakesEffect(a) && a.r in s.requests && IsSaveOf(e, a.r, s.requests[a.r])
    ensures s.requests[a.r].kind == Save && s.requests[a.r].phase.Written?
  {
    hide Inv, CommitStep;
    if TakesEffect(a) {
      CommitLogsItsSave(s, a.r, a.end, e);
    } else {
      hide Step, Enabled;
      OnlyCommitsLogSaves(s, a, e);
    }
  }

  /** In any run, every committed save was submitted by its user, logged in. */
  lemma {:induction false} SavesCameFromTheirUsers(splitter: Splitter, users: set<UserId>, key: Option<Key>,
                                                   actions: seq<Action>, e: Event)
    requires CanRun(Start(splitter, users, key), actions)
    requires e in Exec(Start(splitter, users, key), actions).history && e.Saved?
    ensures Arrive(e.origin, Save, Some(e.write.user), e.submittedHost, e.submittedToken) in actions
    decreases |actions|
  {
    hide Step, Enabled, Inv;
    if actions == [] {
    } else {
      var start := Start(splitter, users, key);
      var earlier, last := actions[..|actions| - 1], actions[|actions| - 1];
      var s := Exec(start, earlier);
      if e in s.history {
        SavesCameFromTheirUsers(splitter, users, key, earlier, e);
      } else {
        StartIsOk(splitter, users, key);
        EveryRunKeepsInv(start, earlier);
        StepKeepsSavers(s, earlier, last, e);
        RequestsCameFromTheirUsers(splitter, users, key, earlier, last.r);
      }
    }
  }

  /** This user submitted this pair in this run, logged in, and this row holds it stripped. */
  ghost predicate Submitted(actions: seq<Action>, r: RequestId, user: UserId, host: string, token: string, row: Row) {
    && Arrive(r, Save, Some(user), host, token) in actions
    && row.user == user && row.host == Strip(host)
    && exists key :: Decrypt(key, row.secret) == Some(Strip(token))
  }

  /** In any run, every stored row holds a pair its own user submitted, logged in. */
  lemma EveryRowWasSubmitted(splitter: Splitter, users: set<UserId>, key: Option<Key>, actions: seq<Action>,
                             user: UserId)
    requires CanRun(Start(splitter, users, key), actions)
    requires Has(Exec(Start(splitter, users, key), actions).table, user)
    ensures var t := Exec(Start(splitter, users, key), actions).table;
            exists r, host, token :: Submitted(actions, r, user, host, token, t[RowOf(t, user)])
  {
    var s := Exec(Start(splitter, users, key), actions);
    StartIsOk(splitter, users, key);
    EveryRunKeepsInv(Start(splitter, users, key), actions);
    RowIsLastSave(s, user);
    hide Inv, CanRun, Exec, Step, ValidateHost;
    var e := LastSave(s.history, user).value;
    SavesCameFromTheirUsers(splitter, users, key, actions, e);
    assert Submitted(actions, e.origin, user, e.submittedHost, e.submittedToken, s.table[RowOf(s.table, user)]);
  }

  // ---------------------------------------------------------------- each step of the POST routes

  /** Neither field is blank and the host reaches an authority. */
  ghost predicate Acceptable(host: string, token: string, splitter: Splitter) {
    && Strip(host) != "" && Strip(token) != ""
    && exists a, plain :: Reaches(Strip(host), a, plain, splitter)
  }

  /** This is the message for a form that is not. */
  ghost predicate CopyFor(copy: Copy, host: string, token: string, splitter: Splitter) {
    copy == if Strip(host) == "" || Strip(token) == "" || RefusalMentionsBlank(Strip(host), splitter)
            then HostAndTokenRequired else HostMustBeValid
  }

  /** This is what a test reports of a fetch that ended so. */
  predicate Reports(outcome: TestOutcome, fetched: Client.Outcome) {
    match fetched
    case Fetched(_) => outcome == TestOutcome.Success
    case AuthFailed => outcome == AuthFailure
    case ConnectionFailed => outcome == GenericFailure
    case Aborted => false
  }

  /** Beginning a test or a save goes on with the stripped pair exactly if the form is acceptable, and
      otherwise answers with the right message; a settings read goes ahead. */
  ghost predicate BeginsAs(splitter: Splitter, q: Request, phase: Phase) {
    if q.kind == Settings then phase == Reading(ToShow)
    else if Acceptable(q.host, q.token, splitter) then phase == Testing(Strip(q.host), Strip(q.token))
    else if q.kind == TestConnection
    then phase.Finished? && phase.reply.InvalidTest? && CopyFor(phase.reply.copy, q.host, q.token, splitter)
    else phase.Reading? && phase.why.AfterInvalid? && CopyFor(phase.why.copy, q.host, q.token, splitter)
  }

  lemma FormInPlainTerms(host: string, token: string, splitter: Splitter)
    ensures match ValidateForm(host, token, splitter)
            case Valid(h, t) => Acceptable(host, token, splitter) && h == Strip(host) && t == Strip(token)
            case Invalid(errors) =>
              !Acceptable(host, token, splitter) && CopyFor(ValidationErrorMessage(errors), host, token, splitter)
  {
    hide ValidateForm, ValidationErrorMessage, RefusalMentionsBlank, Reaches;
    FormValidExactly(host, token, splitter);
    if ValidateForm(host, token, splitter).Valid? {
      AcceptedFormsAreFixedPoints(host, token, splitter);
    } else {
      RequiredCopyExactly(host, token, splitter);
    }
  }

  lemma BeginExactly(s: Sys, r: RequestId)
    requires Enabled(s, Begin(r))
    ensures BeginsAs(s.splitter, s.requests[r], Step(s, Begin(r)).requests[r].phase)
  {
    var q := s.requests[r];
    hide ValidateForm, ValidationErrorMessage, Acceptable, CopyFor;
    FormInPlainTerms(q.host, q.token, s.splitter);
  }

  /** After a fetch, a test answers with its outcome; a save goes on with the stripped pair exactly if the
      fetch succeeded, and otherwise answers with its outcome. */
  ghost predicate FetchesAs(q: Request, fetched: Client.Outcome, phase: Phase) {
    if fetched.Aborted? then phase == Finished(Dropped)
    else if q.kind == TestConnection
    then phase.Finished? && phase.reply.TestResult? && Reports(phase.reply.outcome, fetched)
    else if fetched.Fetched? then phase == Saving(Strip(q.host), Strip(q.token))
    else phase.Reading? && phase.why.AfterRejected? && Reports(phase.why.outcome, fetched)
  }

  lemma FetchMove(r: RequestId, q: Request, factory: Factory, now: int)
    requires q.phase == Testing(Strip(q.host), Strip(q.token))
    ensures var fetched := Client.FetchOutcome(factory(Strip(q.host)), Strip(q.token), now);
            FetchesAs(q, fetched, DoFetch(r, q, factory, now).request.phase)
  {
    hide Client.FetchOutcome, Strip;
  }

  /** The fetch of a test or a save uses the stripped pair. */
  lemma FetchExactly(s: Sys, r: RequestId, factory: Factory, now: int)
    requires Reachable(s) && Enabled(s, Fetch(r, factory, now))
    ensures var q := s.requests[r];
            var fetched := Client.FetchOutcome(factory(Strip(q.host)), Strip(q.token), now);
            FetchesAs(q, fetched, Step(s, Fetch(r, factory, now)).requests[r].phase)
  {
    hide Reachable, Inv, FetchesAs, DoFetch, Client.FetchOutcome, Strip;
    ReachableIsOk(s);
    TestedPairIsStripped(s, r);
    FetchMove(r, s.requests[r], factory, now);
  }

  /** A commit that is acknowledged goes on to read the row back; every other end of it ends the request. */
  lemma CommitExactly(s: Sys, r: RequestId, end: CommitEnd)
    requires Reachable(s) && Enabled(s, Commit(r, end))
    ensures var s' := Step(s, Commit(r, end));
            && s'.requests[r].phase == (match end
                                        case Acknowledged => Reading(AfterSaved)
                                        case NotCommitted => Finished(ServerError)
                                        case CommittedButRaised => Finished(ServerError)
                                        case CommittedButCancelled => Finished(Dropped))
            && (end == NotCommitted ==> s'.table == s.table)
  {
    ReachableIsOk(s);
    CommitSucceeds(s, r);
    hide Inv, Reachable, WrittenOk, SerialSave;
  }

  /** A request can be dropped as long as it is open. It then ends, with its session rolled back and
      nothing else changed. */
  lemma DropExactly(s: Sys, r: RequestId)
    requires r in s.requests && !s.requests[r].phase.Finished?
    ensures Enabled(s, Drop(r))
    ensures var s' := Step(s, Drop(r));
            && s' == s.(requests := s'.requests) && s'.requests.Keys == s.requests.Keys
            && (forall p :: p in s.requests && p != r ==> s'.requests[p] == s.requests[p])
            && s'.requests[r].phase == Finished(Dropped) && s'.requests[r].session.dirty == map[]
  {
  }

  /** Deleting a user waits for open writes of theirs, and then removes their row and nobody else's. */
  lemma DeletionExactly(s: Sys, user: UserId, other: UserId)
    ensures Enabled(s, DeleteUser(user))
       <==> forall r :: r in s.requests ==>
              forall i :: i in s.requests[r].session.dirty ==> s.requests[r].session.dirty[i].user != user
    ensures Enabled(s, DeleteUser(user)) ==>
              var s' := Step(s, DeleteUser(user));
              && s'.users == s.users - {user} && !Has(s'.table, user)
              && (other != user ==> RowsOf(s'.table, other) == RowsOf(s.table, other))
              && s'.requests == s.requests && s'.key == s.key
  {
    if Enabled(s, DeleteUser(user)) && other != user {
      assert RowsOf(WithoutUser(s.table, user), other) == RowsOf(s.table, other);
    }
  }

  /** Adding a user and changing the key do just that. */
  lemma OtherChangesExactly(s: Sys, user: UserId, key: Option<Key>)
    ensures Step(s, AddUser(user)) == s.(users := s.users + {user})
    ensures Step(s, ChangeKey(key)) == s.(key := key)
  {
  }

  // ---------------------------------------------------------------- every answer of every run

  /** This request made a fetch in this run, with this pair stripped, that ended as reported. */
  ghost predicate FetchedAs(actions: seq<Action>, r: RequestId, host: string, token: string, outcome: TestOutcome) {
    exists factory: Factory, now: int ::
      && Fetch(r, factory, now) in actions
      && Reports(outcome, Client.FetchOutcome(factory(Strip(host)), Strip(token), now))
  }

  ghost predicate Refused(splitter: Splitter, host: string, token: string, copy: Copy) {
    !Acceptable(host, token, splitter) && CopyFor(copy, host, token, splitter)
  }

  ghost predicate TestedAs(splitter: Splitter, actions: seq<Action>, r: RequestId, host: string, token: string,
                           outcome: TestOutcome)
  {
    Acceptable(host, token, splitter) && FetchedAs(actions, r, host, token, outcome)
  }

  /** What a settings fragment may say, given what happened to its request. */
  ghost predicate WhyIsTrue(splitter: Splitter, actions: seq<Action>, r: RequestId, q: Request, why: Why) {
    match why
    case ToShow => q.kind == Settings
    case AfterInvalid(copy) => q.kind == Save && Refused(splitter, q.host, q.token, copy)
    case AfterRejected(outcome) =>
      q.kind == Save && outcome != TestOutcome.Success && TestedAs(splitter, actions, r, q.host, q.token, outcome)
    case AfterSaved => q.kind == Save && TestedAs(splitter, actions, r, q.host, q.token, TestOutcome.Success)
  }

  /** Where a request stands, and what it has been answered, is true of what happened to it. */
  ghost predicate Explained(splitter: Splitter, actions: seq<Action>, r: RequestId, q: Request) {
    match q.phase
    case Arrived => true
    case Testing(_, _) => q.kind in {TestConnection, Save} && Acceptable(q.host, q.token, splitter)
    case Saving(_, _) => q.kind == Save && TestedAs(splitter, actions, r, q.host, q.token, TestOutcome.Success)
    case Written(_, _) => q.kind == Save && TestedAs(splitter, actions, r, q.host, q.token, TestOutcome.Success)
    case Reading(why) => WhyIsTrue(splitter, actions, r, q, why)
    case Loaded(_) => q.kind == Dashboard
    case Finished(InvalidTest(copy)) => q.kind == TestConnection && Refused(splitter, q.host, q.token, copy)
    case Finished(TestResult(outcome)) =>
      q.kind == TestConnection && TestedAs(splitter, actions, r, q.host, q.token, outcome)
    case Finished(SettingsFragment(why, _)) => WhyIsTrue(splitter, actions, r, q, why)
    case Finished(TilesFragment(_)) => q.kind == Dashboard
    case Finished(ServerError) => q.kind in {Save, Dashboard}
    case Finished(_) => true
  }

  /** It stays true as more happens. */
  lemma ExplainedStays(splitter: Splitter, actions: seq<Action>, a: Action, r: RequestId, q: Request)
    requires Explained(splitter, actions, r, q)
    ensures Explained(splitter, actions + [a], r, q)
  {
    hide Acceptable, Refused, Reports;
    forall outcome | FetchedAs(actions, r, q.host, q.token, outcome)
      ensures FetchedAs(actions + [a], r, q.host, q.token, outcome)
    {
      var factory: Factory, now: int :|
        && Fetch(r, factory, now) in actions
        && Reports(outcome, Client.FetchOutcome(factory(Strip(q.host)), Strip(q.token), now));
      assert Fetch(r, factory, now) in actions + [a];
    }
  }

  lemma {:induction false} RunKeepsSplitter(s: Sys, actions: seq<Action>)
    requires CanRun(s, actions)
    ensures Exec(s, actions).splitter == s.splitter
    decreases |actions|
  {
    hide Enabled;
    if actions == [] {
    } else {
      RunKeepsSplitter(s, actions[..|actions| - 1]);
    }
  }

  lemma FetchIsExplained(splitter: Splitter, actions: seq<Action>, r: RequestId, q: Request, q': Request,
                         factory: Factory, now: int)
    requires q.phase.Testing? && Explained(splitter, actions, r, q)
    requires q'.kind == q.kind && q'.user == q.user && q'.host == q.host && q'.token == q.token
    requires FetchesAs(q, Client.FetchOutcome(factory(Strip(q.host)), Strip(q.token), now), q'.phase)
    ensures Explained(splitter, actions + [Fetch(r, factory, now)], r, q')
  {
    hide Strip, Acceptable, Refused, Client.FetchOutcome;
    var more := actions + [Fetch(r, factory, now)];
    var fetched := Client.FetchOutcome(factory(Strip(q.host)), Strip(q.token), now);
    assert Fetch(r, factory, now) in more;
    assert forall outcome :: Reports(outcome, fetched) ==> FetchedAs(more, r, q.host, q.token, outcome);
    hide FetchedAs;
  }

  lemma BeginIsExplained(splitter: Splitter, actions: seq<Action>, r: RequestId, q: Request, q': Request)
    requires BeginsAs(splitter, q, q'.phase) && q.kind in {TestConnection, Save, Settings}
    requires q'.kind == q.kind && q'.user == q.user && q'.host == q.host && q'.token == q.token
    ensures Explained(splitter, actions, r, q')
  {
    hide Strip, Acceptable, CopyFor, TestedAs;
  }

  /** The steps whose outcome does not depend on what was submitted. */
  ghost predicate PlainStep(q: Request, phase: Phase) {
    || (q.kind == Save && q.phase.Saving? && (phase.Written? || phase == Finished(ServerError)))
    || (q.kind == Save && q.phase.Written?
        && (phase == Reading(AfterSaved) || phase == Finished(ServerError) || phase == Finished(Dropped)))
    || (q.phase.Reading? && phase.Finished? && phase.reply.SettingsFragment? && phase.reply.why == q.phase.why)
    || (q.kind == Dashboard && (phase.Loaded? || (phase.Finished? && phase.reply.TilesFragment?)))
    || (q.kind == Dashboard && (phase == Finished(ServerError) || phase == Finished(Dropped)))
    || phase == Finished(Dropped)
  }

  lemma PlainStepIsExplained(splitter: Splitter, actions: seq<Action>, r: RequestId, q: Request, q': Request)
    requires Explained(splitter, actions, r, q) && PlainStep(q, q'.phase)
    requires q'.kind == q.kind && q'.user == q.user && q'.host == q.host && q'.token == q.token
    ensures Explained(splitter, actions, r, q')
  {
    hide TestedAs, Refused, Acceptable;
  }

  lemma OtherStepsArePlain(s: Sys, a: Action, r: RequestId)
    requires Enabled(s, a) && ActsFor(a, r) && r in s.requests
    requires a.RunUpsert? || a.Read? || a.LoadRow? || a.ShowTiles? || a.Drop?
    ensures r in Step(s, a).requests && PlainStep(s.requests[r], Step(s, a).requests[r].phase)
  {
    hide SessionUpsert, SessionGet, TilesPage, LockedByOther, WriteOf, Locked;
  }

  lemma CommitIsPlain(s: Sys, r: RequestId, end: CommitEnd)
    requires Reachable(s) && Enabled(s, Commit(r, end))
    ensures r in Step(s, Commit(r, end)).requests
    ensures PlainStep(s.requests[r], Step(s, Commit(r, end)).requests[r].phase)
  {
    CommitExactly(s, r, end);
    StepKeepsIdentity(s, Commit(r, end), r);
    hide Reachable, Step;
  }

  lemma ArrivalIsExplained(s: Sys, actions: seq<Action>, a: Action, r: RequestId)
    requires a.Arrive? && a.r == r && Enabled(s, a)
    ensures r in Step(s, a).requests && Explained(s.splitter, actions, r, Step(s, a).requests[r])
  {
    ArrivalExactly(s, a.r, a.kind, a.who, a.host, a.token);
    hide Step, Acceptable, TestedAs, Refused;
  }

  lemma StepIsExplained(s: Sys, actions: seq<Action>, a: Action, r: RequestId)
    requires Reachable(s) && Enabled(s, a) && r in Step(s, a).requests
    requires r in s.requests ==> Explained(s.splitter, actions, r, s.requests[r])
    ensures Explained(s.splitter, actions + [a], r, Step(s, a).requests[r])
  {
    hide Reachable, Explained, PlainStep, BeginsAs, FetchesAs, Step;
    if r !in s.requests {
      NewRequestsArrive(s, a, r);
      ArrivalIsExplained(s, actions + [a], a, r);
    } else if !ActsFor(a, r) {
      StepLeavesRequest(s, a, r);
      ExplainedStays(s.splitter, actions, a, r, s.requests[r]);
    } else if a.Fetch? {
      StepKeepsIdentity(s, a, r);
      FetchExactly(s, r, a.factory, a.now);
      FetchIsExplained(s.splitter, actions, r, s.requests[r], Step(s, a).requests[r], a.factory, a.now);
    } else {
      StepKeepsIdentity(s, a, r);
      if a.Begin? {
        BeginExactly(s, r);
        BeginIsExplained(s.splitter, actions, r, s.requests[r], Step(s, a).requests[r]);
      } else {
        if a.Commit? {
          CommitIsPlain(s, r, a.end);
        } else {
          OtherStepsArePlain(s, a, r);
        }
        PlainStepIsExplained(s.splitter, actions, r, s.requests[r], Step(s, a).requests[r]);
      }
      ExplainedStays(s.splitter, actions, a, r, Step(s, a).requests[r]);
    }
  }

  /** In any run, every request's answer is true: a form is called invalid only if it is, with the right
      message; a test or a save reports the outcome of a fetch this very request made with the stripped
      pair; and a save goes on to be written only after such a fetch succeeded. */
  lemma {:induction false} EveryAnswerIsTrue(splitter: Splitter, users: set<UserId>, key: Option<Key>,
                                             actions: seq<Action>, r: RequestId)
    requires CanRun(Start(splitter, users, key), actions)
    requires r in Exec(Start(splitter, users, key), actions).requests
    ensures Explained(splitter, actions, r, Exec(Start(splitter, users, key), actions).requests[r])
    decreases |actions|
  {
    hide Step, Enabled, Explained;
    if actions == [] {
    } else {
      var start := Start(splitter, users, key);
      var earlier, last := actions[..|actions| - 1], actions[|actions| - 1];
      var s := Exec(start, earlier);
      if r in s.requests {
        EveryAnswerIsTrue(splitter, users, key, earlier, r);
      }
      assert Reachable(s);
      RunKeepsSplitter(start, earlier);
      StepIsExplained(s, earlier, last, r);
      assert actions == earlier + [last];
    }
  }

  // ---------------------------------------------------------------- nobody waits for ever

  /** Which kinds of request get where. */
  lemma KindsFitPhases(s: Sys, r: RequestId)
    requires Reachable(s) && r in s.requests
    ensures var q := s.requests[r];
            && (q.phase.Testing? ==> q.kind in {TestConnection, Save})
            && (q.phase.Saving? || q.phase.Written? ==> q.kind == Save)
            && (q.phase.Reading? ==> q.kind in {Save, Settings})
            && (q.phase.Loaded? ==> q.kind == Dashboard)
  {
    var splitter, users, key, actions :|
      CanRun(Start(splitter, users, key), actions) && s == Exec(Start(splitter, users, key), actions);
    EveryAnswerIsTrue(splitter, users, key, actions, r);
    hide CanRun, Exec, Reachable, TestedAs, Refused, Acceptable;
  }

  lemma DirtyMeansWritten(s: Sys, p: RequestId, q: Request, user: UserId)
    requires RequestOk(s, p, q) && Has(q.session.dirty, user)
    ensures q.phase.Written? && q.user == user
  {
    hide FormOk, HasFetched, HasSaved, Wrote;
  }

  /** Only a save that is about to commit holds a lock, and it is on its own user's row. */
  lemma LockHoldersCanCommit(s: Sys, p: RequestId, user: UserId)
    requires Reachable(s) && p in s.requests && Has(s.requests[p].session.dirty, user)
    ensures s.requests[p].user == user && Enabled(s, Commit(p, Acknowledged))
  {
    hide Reachable, RequestOk, TableOk, HistoryOk, Separated;
    KindsFitPhases(s, p);
    ReachableIsOk(s);
    DirtyMeansWritten(s, p, s.requests[p], user);
  }

  /** What the environment may do next for an open request: end its fetch or its commit in any way, and give
      its write any unused id, nonce and clock, once no other open write is on the same user's row. */
  ghost predicate IsFree(s: Sys, r: RequestId)
    requires r in s.requests
  {
    match s.requests[r].phase
    case Arrived => Enabled(s, if s.requests[r].kind == Dashboard then LoadRow(r) else Begin(r))
    case Testing(_, _) => forall factory, now :: Enabled(s, Fetch(r, factory, now))
    case Saving(_, _) =>
      LockedByOther(s, r, s.requests[r].user) ||
      forall id, nonce, testedAt, clock :: id !in s.usedIds ==> Enabled(s, RunUpsert(r, id, nonce, testedAt, clock))
    case Written(_, _) => forall end :: Enabled(s, Commit(r, end))
    case Reading(_) => Enabled(s, Read(r))
    case Loaded(_) => forall factory, now :: Enabled(s, ShowTiles(r, factory, now))
    case Finished(_) => true
  }

  /** Nothing restricts the environment but the locks: requests arrive, users are added and keys changed at
      any time, and open requests go on in any way. */
  lemma EnvironmentIsFree(s: Sys, r: RequestId)
    requires Reachable(s)
    ensures r !in s.requests ==> forall kind, who, host, token :: Enabled(s, Arrive(r, kind, who, host, token))
    ensures r in s.requests ==> IsFree(s, r)
    ensures forall user :: Enabled(s, AddUser(user))
    ensures forall key :: Enabled(s, ChangeKey(key))
  {
    if r in s.requests {
      KindsFitPhases(s, r);
    }
    hide Reachable;
  }

  lemma {:induction false} UnusedId(ids: set<RowId>) returns (id: RowId)
    ensures forall i :: i in ids ==> i < id
  {
    if ids == {} {
      id := 0;
    } else {
      var i :| i in ids;
      var bound := UnusedId(ids - {i});
      id := if i < bound then bound else i + 1;
      forall j | j in ids ensures j < id {
        assert j == i || j in ids - {i};
      }
    }
  }

  /** Every open request has a step of its own to take, other than being dropped, unless it is a save
      waiting for another open write of the same user's row, and that write can be committed. */
  lemma NobodyIsStuck(s: Sys, r: RequestId)
    requires Reachable(s) && r in s.requests && !s.requests[r].phase.Finished?
    ensures || (exists a :: ActsFor(a, r) && !a.Drop? && Enabled(s, a))
            || (exists p :: p != r && Enabled(s, Commit(p, Acknowledged)) && s.requests[p].user == s.requests[r].user)
  {
    EnvironmentIsFree(s, r);
    var q := s.requests[r];
    var a := match q.phase
      case Arrived => if q.kind == Dashboard then LoadRow(r) else Begin(r)
      case Testing(_, _) => Fetch(r, _ => NotBuilt, 0)
      case Written(_, _) => Commit(r, Acknowledged)
      case Reading(_) => Read(r)
      case _ => ShowTiles(r, _ => NotBuilt, 0);
    if !q.phase.Saving? {
      assert ActsFor(a, r) && !a.Drop? && Enabled(s, a);
    } else if LockedByOther(s, r, q.user) {
      var p :| p in s.requests && p != r && Has(s.requests[p].session.dirty, q.user);
      LockHoldersCanCommit(s, p, q.user);
    } else {
      var id := UnusedId(s.usedIds);
      var upsert := RunUpsert(r, id, 0, 0, 0);
      assert ActsFor(upsert, r) && !upsert.Drop? && Enabled(s, upsert);
    }
  }
}
