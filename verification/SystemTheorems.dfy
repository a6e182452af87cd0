/** What holds in every reachable state of the whole service, over every interleaving. */
module SystemTheorems {
  import opened Json
  import opened Text
  import opened Urls
  import opened Validation
  import opened Cipher
  import opened Store
  import opened Transport
  import opened Tiles
  import opened System

  // ---------------------------------------------------------------- the invariant

  /** This pair is the stripped submission, and its host passes validation. */
  ghost predicate FormOk(splitter: Splitter, q: Request, host: string, token: string) {
    host == Strip(q.host) && token == Strip(q.token) && ValidateHost(host, splitter) == Urls.Ok(host)
  }

  /** This request has fetched with success using this pair. */
  ghost predicate HasFetched(history: seq<Event>, r: RequestId, host: string, token: string) {
    FetchSucceeded(r, host, token) in history
  }

  /** An open write is exactly what its statement would still do to the committed table. */
  ghost predicate WrittenOk(s: Sys, r: RequestId, q: Request, w: Write, key: Key) {
    && FormOk(s.splitter, q, w.host, Strip(q.token))
    && Decrypt(key, w.secret) == Some(Strip(q.token))
    && HasFetched(s.history, r, w.host, Strip(q.token))
    && w.user == q.user && w.user in s.users && w.id in s.usedIds
    && UpsertRow(s.table, s.users, w).Success?
    && q.session.dirty == map[UpsertRow(s.table, s.users, w).value := RowFrom(w)]
  }

  /** This event is the committed save of this request's submission, for its own user. */
  ghost predicate IsSaveOf(e: Event, r: RequestId, q: Request) {
    && e.Saved? && e.origin == r
    && e.submittedHost == q.host && e.submittedToken == q.token && e.write.user == q.user
  }

  /** This request's submission has been committed. */
  ghost predicate HasSaved(history: seq<Event>, r: RequestId, q: Request) {
    exists e :: e in history && IsSaveOf(e, r, q)
  }

  /** This save wrote the stripped submission, its host validated and its token sealed with its key. */
  ghost predicate SealedOk(splitter: Splitter, e: Event)
    requires e.Saved?
  {
    && e.write.host == Strip(e.submittedHost)
    && ValidateHost(e.write.host, splitter) == Urls.Ok(e.write.host)
    && Decrypt(e.key, e.write.secret) == Some(Strip(e.submittedToken))
  }

  /** This event is a save of this user's that left this row. */
  ghost predicate Wrote(splitter: Splitter, e: Event, user: UserId, row: Row) {
    e.Saved? && e.write.user == user && RowFrom(e.write) == row && SealedOk(splitter, e)
  }

  /** A request's session has loaded nothing before the request's last read, and has written nothing
      outside its one open transaction. */
  ghost predicate RequestOk(s: Sys, r: RequestId, q: Request) {
    && (q.phase.Finished? || q.session.identity == map[])
    && match q.phase
    case Written(w, key) => WrittenOk(s, r, q, w, key)
    case Testing(host, token) => q.session.dirty == map[] && FormOk(s.splitter, q, host, token)
    case Saving(host, token) =>
      q.session.dirty == map[] && FormOk(s.splitter, q, host, token) && HasFetched(s.history, r, host, token)
    case Loaded(row) => q.session.dirty == map[] && (exists e :: e in s.history && Wrote(s.splitter, e, q.user, row))
    case Reading(AfterSaved) => q.session.dirty == map[] && HasSaved(s.history, r, q)
    case Finished(SettingsFragment(AfterSaved, _)) => q.session.dirty == map[] && HasSaved(s.history, r, q)
    case _ => q.session.dirty == map[]
  }

  ghost predicate Writes(s: Sys, r: RequestId) {
    r in s.requests && s.requests[r].phase.Written?
  }

  /** Open transactions have written different users, with different new ids. */
  ghost predicate Separated(s: Sys) {
    forall p, r :: Writes(s, p) && Writes(s, r) && p != r
      ==> && s.requests[p].phase.write.user != s.requests[r].phase.write.user
          && s.requests[p].phase.write.id != s.requests[r].phase.write.id
  }

  ghost predicate IsLastSave(history: seq<Event>, row: Row) {
    var e := LastSave(history, row.user);
    e.Some? && e.value.Saved? && RowFrom(e.value.write) == row
  }

  /** The committed table is the serial one, and each row in it is the user's last save. */
  ghost predicate TableOk(s: Sys) {
    && Unique(s.table) && References(s.table, s.users) && s.table.Keys <= s.usedIds
    && s.table == Replay(s.history)
    && (forall i :: i in s.table ==> IsLastSave(s.history, s.table[i]))
    && (forall u :: LastSave(s.history, u).Some? ==> Has(s.table, u))
  }

  /** A committed save is sealed so, and its own request had fetched with that pair before. */
  ghost predicate SavedOk(splitter: Splitter, e: Event, before: seq<Event>)
    requires e.Saved?
  {
    && SealedOk(splitter, e)
    && HasFetched(before, e.origin, Strip(e.submittedHost), Strip(e.submittedToken))
  }

  ghost predicate HistoryOk(splitter: Splitter, history: seq<Event>) {
    forall i :: 0 <= i < |history| && history[i].Saved? ==> SavedOk(splitter, history[i], history[..i])
  }

  ghost predicate Inv(s: Sys) {
    && TableOk(s)
    && HistoryOk(s.splitter, s.history)
    && Separated(s)
    && (forall r :: r in s.requests ==> RequestOk(s, r, s.requests[r]))
  }

  // ---------------------------------------------------------------- steps that leave the table alone

  lemma AppendEvent(h: seq<Event>, e: Event)
    ensures (h + [e])[..|h + [e]| - 1] == h && (h + [e])[|h + [e]| - 1] == e
  {
  }

  lemma HistoryKeepsOk(splitter: Splitter, h: seq<Event>, e: Event)
    requires HistoryOk(splitter, h) && (e.Saved? ==> SavedOk(splitter, e, h))
    ensures HistoryOk(splitter, h + [e])
  {
    var h' := h + [e];
    forall i | 0 <= i < |h'| && h'[i].Saved? ensures SavedOk(splitter, h'[i], h'[..i]) {
      if i < |h| {
        assert h'[..i] == h[..i] && h'[i] == h[i];
      } else {
        assert h'[..i] == h;
      }
    }
  }

  /** A log of nothing, or of one successful fetch. */
  ghost predicate Harmless(events: seq<Event>) {
    events == [] || (|events| == 1 && events[0].FetchSucceeded?)
  }

  lemma HarmlessHistory(splitter: Splitter, h: seq<Event>, events: seq<Event>)
    requires HistoryOk(splitter, h) && Harmless(events)
    ensures HistoryOk(splitter, h + events) && Replay(h + events) == Replay(h)
    ensures forall u :: LastSave(h + events, u) == LastSave(h, u)
    ensures forall e :: e in h ==> e in h + events
  {
    if events == [] {
      assert h + events == h;
    } else {
      assert events == [events[0]];
      AppendEvent(h, events[0]);
      HistoryKeepsOk(splitter, h, events[0]);
    }
  }

  /** Whatever is true of a request stays true while the table stands and the log grows. */
  lemma OtherRequestStaysOk(s: Sys, s': Sys, r: RequestId, q: Request)
    requires RequestOk(s, r, q)
    requires s'.splitter == s.splitter && s'.users == s.users && s'.table == s.table && s.usedIds <= s'.usedIds
    requires forall e :: e in s.history ==> e in s'.history
    ensures RequestOk(s', r, q)
  {
  }

  /** No other open transaction clashes with this request's write, if it has one. */
  ghost predicate Apart(s: Sys, r: RequestId, q: Request) {
    q.phase.Written? ==>
      forall p :: Writes(s, p) && p != r
        ==> s.requests[p].phase.write.user != q.phase.write.user && s.requests[p].phase.write.id != q.phase.write.id
  }

  lemma LocalKeepsSeparated(s: Sys, r: RequestId, m: Move)
    requires Separated(s) && Apart(s, r, m.request)
    ensures Separated(Local(s, r, m))
  {
    assert forall p :: p != r && Writes(Local(s, r, m), p) ==> Writes(s, p);
  }

  lemma LocalKeepsTable(s: Sys, r: RequestId, m: Move)
    requires TableOk(s) && HistoryOk(s.splitter, s.history) && Harmless(m.events)
    ensures TableOk(Local(s, r, m)) && HistoryOk(s.splitter, Local(s, r, m).history)
    ensures forall e :: e in s.history ==> e in Local(s, r, m).history
  {
    HarmlessHistory(s.splitter, s.history, m.events);
    hide Replay, LastSave, HistoryOk, Harmless, Unique, References;
  }

  lemma LocalKeepsInv(s: Sys, r: RequestId, m: Move)
    requires Inv(s) && Harmless(m.events)
    requires RequestOk(Local(s, r, m), r, m.request) && Apart(s, r, m.request)
    ensures Inv(Local(s, r, m))
  {
    var s' := Local(s, r, m);
    LocalKeepsTable(s, r, m);
    LocalKeepsSeparated(s, r, m);
    hide TableOk, HistoryOk, Harmless, Separated, Apart, RequestOk;
    forall p | p in s'.requests ensures RequestOk(s', p, s'.requests[p]) {
      if p != r {
        OtherRequestStaysOk(s, s', p, s.requests[p]);
      }
    }
  }

  lemma Ending(s: Sys, r: RequestId, q: Request, reply: Reply, events: seq<Event>)
    requires Inv(s) && Harmless(events)
    requires reply.SettingsFragment? && reply.why.AfterSaved? ==> HasSaved(s.history, r, q)
    ensures Inv(Local(s, r, End(q, reply).(events := events)))
  {
    assert forall e :: e in s.history ==> e in s.history + events;
    LocalKeepsInv(s, r, End(q, reply).(events := events));
  }

  // ---------------------------------------------------------------- each local step

  lemma BegunIsOk(s: Sys, r: RequestId, q: Request)
    requires q.phase.Arrived? && RequestOk(s, r, q)
    ensures RequestOk(s, r, DoBegin(q, s.splitter).request) && !DoBegin(q, s.splitter).request.phase.Written?
  {
    if ValidateForm(q.host, q.token, s.splitter).Valid? {
      AcceptedFormsAreFixedPoints(q.host, q.token, s.splitter);
    }
    hide ValidateHost, ValidateForm, ValidationErrorMessage, WrittenOk, HasFetched;
  }

  lemma BeginKeepsInv(s: Sys, r: RequestId)
    requires Inv(s) && r in s.requests && s.requests[r].phase.Arrived?
    ensures Inv(Local(s, r, DoBegin(s.requests[r], s.splitter)))
  {
    var q := s.requests[r];
    assert RequestOk(s, r, q);
    BegunIsOk(s, r, q);
    var m := DoBegin(q, s.splitter);
    hide Inv, RequestOk;
    OtherRequestStaysOk(s, Local(s, r, m), r, m.request);
    LocalKeepsInv(s, r, m);
  }

  lemma FetchedIsOk(s: Sys, s': Sys, r: RequestId, q: Request, factory: Factory, now: int)
    requires q.phase.Testing? && RequestOk(s, r, q)
    requires s'.splitter == s.splitter && s'.history == s.history + DoFetch(r, q, factory, now).events
    ensures var m := DoFetch(r, q, factory, now);
            RequestOk(s', r, m.request) && !m.request.phase.Written? && Harmless(m.events)
  {
    hide ValidateHost, RunTest, WrittenOk;
  }

  lemma FetchKeepsInv(s: Sys, r: RequestId, factory: Factory, now: int)
    requires Inv(s) && r in s.requests && s.requests[r].phase.Testing?
    ensures Inv(Local(s, r, DoFetch(r, s.requests[r], factory, now)))
  {
    var q := s.requests[r];
    assert RequestOk(s, r, q);
    var m := DoFetch(r, q, factory, now);
    hide Inv, RequestOk, RunTest;
    FetchedIsOk(s, Local(s, r, m), r, q, factory, now);
    LocalKeepsInv(s, r, m);
  }

  lemma ReadKeepsInv(s: Sys, r: RequestId)
    requires Inv(s) && r in s.requests && s.requests[r].phase.Reading?
    ensures Inv(Local(s, r, DoRead(s.requests[r], s.table)))
  {
    var q := s.requests[r];
    assert RequestOk(s, r, q);
    var reply := DoRead(q, s.table).request.phase.reply;
    hide Inv;
    Ending(s, r, q, reply, []);
  }

  /** With nothing written of its own, a session on a new connection sees the committed table. */
  lemma CleanSessionSees(session: Session, table: Table)
    requires session.dirty == map[]
    ensures Visible(session, table) == table
  {
  }

  lemma {:induction false} LastSaveIsIn(h: seq<Event>, user: UserId)
    ensures var e := LastSave(h, user); e.Some? ==> e.value in h && e.value.Saved? && e.value.write.user == user
  {
    if h == [] {
    } else {
      LastSaveIsIn(h[..|h| - 1], user);
    }
  }

  /** A user's row was left by their last save. */
  lemma RowIsLastSave(s: Sys, user: UserId)
    requires TableOk(s) && HistoryOk(s.splitter, s.history) && Has(s.table, user)
    ensures LastSave(s.history, user).Some?
    ensures var e := LastSave(s.history, user).value;
            e in s.history && Wrote(s.splitter, e, user, s.table[RowOf(s.table, user)])
  {
    assert IsLastSave(s.history, s.table[RowOf(s.table, user)]);
    var e := LastSave(s.history, user).value;
    LastSaveIsIn(s.history, user);
    var k :| 0 <= k < |s.history| && s.history[k] == e;
    assert SavedOk(s.splitter, s.history[k], s.history[..k]);
  }

  lemma LoadRowKeepsInv(s: Sys, r: RequestId)
    requires Inv(s) && r in s.requests && s.requests[r].phase.Arrived?
    ensures Inv(Local(s, r, DoLoadRow(s.requests[r], s.table)))
  {
    var q := s.requests[r];
    var m := DoLoadRow(q, s.table);
    assert RequestOk(s, r, q);
    CleanSessionSees(q.session, s.table);
    if Has(s.table, q.user) {
      RowIsLastSave(s, q.user);
    }
    hide ValidateHost, Inv;
    LocalKeepsInv(s, r, m);
  }

  // ---------------------------------------------------------------- the upsert

  /** In a reachable state an upsert that has the lock never violates uniqueness. */
  lemma UpsertNeverClashes(s: Sys, q: Request, w: Write)
    requires TableOk(s) && q.session.dirty == map[] && w.id !in s.usedIds
    ensures UpsertRow(Visible(q.session, s.table), s.users, w) != Error(UniqueViolation)
    ensures UpsertRow(Visible(q.session, s.table), s.users, w) == UpsertRow(s.table, s.users, w)
  {
  }

  lemma UpsertIsApart(s: Sys, r: RequestId, q: Request, w: Write)
    requires Inv(s) && r in s.requests && !LockedByOther(s, r, w.user) && w.id !in s.usedIds
    requires q.phase.Written? && q.phase.write == w
    ensures Apart(s, r, q)
  {
    hide ValidateHost;
    forall p | Writes(s, p) && p != r
      ensures s.requests[p].phase.write.user != w.user && s.requests[p].phase.write.id != w.id
    {
      var other := s.requests[p];
      var v := other.phase.write;
      assert RequestOk(s, p, other);
      var id := UpsertRow(s.table, s.users, v).value;
      assert id in other.session.dirty && other.session.dirty[id].user == v.user;
      assert Has(other.session.dirty, v.user);
    }
  }

  lemma UpsertedIsOk(s: Sys, s': Sys, r: RequestId, q: Request, q': Request, w: Write, key: Key)
    requires TableOk(s) && q.phase.Saving? && RequestOk(s, r, q)
    requires Decrypt(key, w.secret) == Some(q.phase.token)
    requires w.user == q.user && w.host == q.phase.host && w.id in s'.usedIds
    requires UpsertRow(s.table, s.users, w).Success?
    requires q' == q.(session := q'.session, phase := Written(w, key))
    requires q'.session.identity == ExpireAll(q.session.identity)
    requires q'.session.dirty == q.session.dirty[UpsertRow(s.table, s.users, w).value := RowFrom(w)]
    requires s'.splitter == s.splitter && s'.table == s.table && s'.users == s.users
    requires forall e :: e in s.history ==> e in s'.history
    ensures RequestOk(s', r, q')
  {
    hide ValidateHost;
    assert w.user in s.users;
  }

  lemma UpsertKeepsInv(s: Sys, r: RequestId, id: RowId, nonce: nat, testedAt: int, clock: int)
    requires Inv(s) && r in s.requests && s.requests[r].phase.Saving?
    requires id !in s.usedIds && !LockedByOther(s, r, s.requests[r].user)
    ensures Inv(Local(s, r, DoUpsert(s, s.requests[r], id, nonce, testedAt, clock)))
  {
    var q := s.requests[r];
    assert RequestOk(s, r, q);
    var m := DoUpsert(s, q, id, nonce, testedAt, clock);
    if m.request.phase.Finished? {
      Ending(s, r, q, ServerError, []);
    } else {
      var w := WriteOf(q, id, s.key.value, nonce, testedAt, clock);
      UpsertNeverClashes(s, q, w);
      UpsertIsApart(s, r, m.request, w);
      UpsertedIsOk(s, Local(s, r, m), r, q, m.request, w, s.key.value);
      hide Inv, Apart, RequestOk;
      LocalKeepsInv(s, r, m);
    }
  }

  // ---------------------------------------------------------------- the commit

  /** An open write can always be committed, and the outcome is the table one save alone would leave. */
  lemma CommitIsSerial(t: Table, users: set<UserId>, session: Session, w: Write)
    requires Unique(t) && UpsertRow(t, users, w).Success?
    requires session.dirty == map[UpsertRow(t, users, w).value := RowFrom(w)]
    ensures SessionCommit(session, t) == DbResult.Success((SerialSave(t, w), session.(dirty := map[])))
    ensures SerialSave(t, w) == t[UpsertRow(t, users, w).value := RowFrom(w)] && Unique(SerialSave(t, w))
  {
    var id := UpsertRow(t, users, w).value;
    var after := t[id := RowFrom(w)];
    assert Unique(after);
    assert Visible(session, t) == after;
    CleanSessionSees(FRESH, t);
    assert UpsertRow(Visible(FRESH, t), {w.user}, w) == DbResult.Success(id);
    var alone := SessionUpsert(FRESH, t, {w.user}, w).value;
    assert alone.dirty == map[id := RowFrom(w)];
    assert Visible(alone, t) == after;
  }

  lemma OtherWriteStays(t: Table, users: set<UserId>, w: Write, other: Write)
    requires Unique(t) && UpsertRow(t, users, w).Success? && UpsertRow(t, users, other).Success?
    requires w.user != other.user && w.id != other.id
    ensures UpsertRow(t[UpsertRow(t, users, w).value := RowFrom(w)], users, other) == UpsertRow(t, users, other)
  {
    var id := UpsertRow(t, users, w).value;
    var after := t[id := RowFrom(w)];
    assert Unique(after);
    if Has(t, other.user) {
      var o := RowOf(t, other.user);
      assert o in after && after[o].user == other.user;
    } else {
      assert !Has(after, other.user);
    }
  }

  lemma CommittedTableOk(s: Sys, r: RequestId, q: Request, w: Write, key: Key, table: Table, history: seq<Event>)
    requires TableOk(s) && WrittenOk(s, r, q, w, key)
    requires table == s.table[UpsertRow(s.table, s.users, w).value := RowFrom(w)] && table == SerialSave(s.table, w)
    requires history == s.history + [Saved(r, q.host, q.token, key, w)]
    ensures TableOk(s.(table := table, history := history))
  {
    hide ValidateHost, SerialSave;
    var e := Saved(r, q.host, q.token, key, w);
    var id := UpsertRow(s.table, s.users, w).value;
    AppendEvent(s.history, e);
    assert Replay(history) == SerialSave(Replay(s.history), w);
    assert LastSave(history, w.user) == Some(e);
    forall u | u != w.user ensures LastSave(history, u) == LastSave(s.history, u) {
    }
    forall i | i in table ensures IsLastSave(history, table[i]) {
      if i != id {
        assert IsLastSave(s.history, s.table[i]);
      }
    }
    forall u | LastSave(history, u).Some? ensures Has(table, u) {
      if u == w.user {
        assert id in table && table[id].user == u;
      } else {
        var o := RowOf(s.table, u);
        assert o in table && table[o].user == u;
      }
    }
  }

  /** An open write in a reachable state can always be committed, as one save alone would. */
  lemma CommitSucceeds(s: Sys, r: RequestId)
    requires Inv(s) && r in s.requests && s.requests[r].phase.Written?
    ensures var q := s.requests[r];
            var w := q.phase.write;
            && WrittenOk(s, r, q, w, q.phase.key)
            && SessionCommit(q.session, s.table)
               == DbResult.Success((SerialSave(s.table, w), q.session.(dirty := map[])))
            && SerialSave(s.table, w) == s.table[UpsertRow(s.table, s.users, w).value := RowFrom(w)]
  {
    hide ValidateHost;
    var q := s.requests[r];
    assert RequestOk(s, r, q);
    CommitIsSerial(s.table, s.users, q.session, q.phase.write);
  }

  lemma CommitKeepsTable(s: Sys, r: RequestId, end: CommitEnd)
    requires Inv(s) && r in s.requests && s.requests[r].phase.Written? && !end.NotCommitted?
    ensures CommitStep(s, r, end).table == SerialSave(s.table, s.requests[r].phase.write)
    ensures TableOk(CommitStep(s, r, end)) && HistoryOk(s.splitter, CommitStep(s, r, end).history)
  {
    var q := s.requests[r];
    var w := q.phase.write;
    CommitSucceeds(s, r);
    var s' := CommitStep(s, r, end);
    var e := Saved(r, q.host, q.token, q.phase.key, w);
    CommittedTableOk(s, r, q, w, q.phase.key, s'.table, s'.history);
    assert SavedOk(s.splitter, e, s.history) by {
      hide ValidateHost;
    }
    HistoryKeepsOk(s.splitter, s.history, e);
    hide ValidateHost, SerialSave, HistoryOk;
  }

  lemma UniqueTable(s: Sys)
    requires Inv(s)
    ensures Unique(s.table)
  {
  }

  lemma CommittedRequestOk(s: Sys, r: RequestId, end: CommitEnd)
    requires r in s.requests && s.requests[r].phase.Written? && RequestOk(s, r, s.requests[r]) && !end.NotCommitted?
    requires SessionCommit(s.requests[r].session, s.table).Success?
    ensures RequestOk(CommitStep(s, r, end), r, CommitStep(s, r, end).requests[r])
  {
    hide ValidateHost;
    var q := s.requests[r];
    var e := Saved(r, q.host, q.token, q.phase.key, q.phase.write);
    assert e in CommitStep(s, r, end).history && IsSaveOf(e, r, CommitStep(s, r, end).requests[r]);
  }

  lemma CommitKeepsOther(s: Sys, s': Sys, w: Write, p: RequestId, other: Request)
    requires Unique(s.table) && UpsertRow(s.table, s.users, w).Success? && RequestOk(s, p, other)
    requires other.phase.Written? ==> other.phase.write.user != w.user && other.phase.write.id != w.id
    requires s'.splitter == s.splitter && s'.users == s.users && s.usedIds <= s'.usedIds
    requires s'.table == s.table[UpsertRow(s.table, s.users, w).value := RowFrom(w)]
    requires forall e :: e in s.history ==> e in s'.history
    ensures RequestOk(s', p, other)
  {
    hide ValidateHost;
    if other.phase.Written? {
      OtherWriteStays(s.table, s.users, w, other.phase.write);
    }
  }

  lemma CommitKeepsRequests(s: Sys, r: RequestId, end: CommitEnd, p: RequestId)
    requires Inv(s) && r in s.requests && s.requests[r].phase.Written? && p in s.requests && !end.NotCommitted?
    ensures RequestOk(CommitStep(s, r, end), p, CommitStep(s, r, end).requests[p])
  {
    hide ValidateHost, SerialSave, TableOk, HistoryOk;
    CommitSucceeds(s, r);
    assert RequestOk(s, p, s.requests[p]) && RequestOk(s, r, s.requests[r]);
    if p == r {
      CommittedRequestOk(s, r, end);
    } else {
      UniqueTable(s);
      assert Writes(s, r);
      assert s.requests[p].phase.Written? ==> Writes(s, p);
      CommitKeepsOther(s, CommitStep(s, r, end), s.requests[r].phase.write, p, s.requests[p]);
    }
  }

  lemma CommitKeepsSeparated(s: Sys, r: RequestId, end: CommitEnd)
    requires Separated(s) && r in s.requests && s.requests[r].phase.Written? && !end.NotCommitted?
    requires SessionCommit(s.requests[r].session, s.table).Success?
    ensures Separated(CommitStep(s, r, end))
  {
    assert forall p :: Writes(CommitStep(s, r, end), p) ==> Writes(s, p) && p != r;
  }

  lemma CommitKeepsInv(s: Sys, r: RequestId, end: CommitEnd)
    requires Inv(s) && r in s.requests && s.requests[r].phase.Written? && !end.NotCommitted?
    ensures Inv(CommitStep(s, r, end))
  {
    hide ValidateHost, SerialSave, TableOk, HistoryOk, RequestOk, WrittenOk, Separated;
    CommitSucceeds(s, r);
    CommitKeepsTable(s, r, end);
    CommitKeepsSeparated(s, r, end);
    forall p | p in s.requests ensures RequestOk(CommitStep(s, r, end), p, CommitStep(s, r, end).requests[p]) {
      CommitKeepsRequests(s, r, end, p);
    }
  }

  // ---------------------------------------------------------------- the cascade, and the environment

  lemma DeletedTableOk(s: Sys, user: UserId)
    requires TableOk(s)
    ensures TableOk(DeleteStep(s, user))
  {
    var s' := DeleteStep(s, user);
    var e := UserDeleted(user);
    AppendEvent(s.history, e);
    assert Replay(s'.history) == WithoutUser(Replay(s.history), user);
    assert LastSave(s'.history, user) == None;
    forall u | u != user ensures LastSave(s'.history, u) == LastSave(s.history, u) {
    }
    forall u | LastSave(s'.history, u).Some? ensures Has(s'.table, u) {
      var o := RowOf(s.table, u);
      assert o in s'.table && s'.table[o].user == u;
    }
  }

  lemma DeleteKeepsWrite(s: Sys, user: UserId, w: Write)
    requires Unique(s.table) && UpsertRow(s.table, s.users, w).Success? && w.user != user
    ensures UpsertRow(WithoutUser(s.table, user), s.users - {user}, w) == UpsertRow(s.table, s.users, w)
  {
    var after := WithoutUser(s.table, user);
    if Has(s.table, w.user) {
      var o := RowOf(s.table, w.user);
      assert o in after && after[o].user == w.user;
    } else {
      assert !Has(after, w.user);
    }
  }

  lemma DeleteKeepsRequest(s: Sys, user: UserId, r: RequestId)
    requires Unique(s.table) && r in s.requests && RequestOk(s, r, s.requests[r]) && !Locked(s, user)
    ensures RequestOk(DeleteStep(s, user), r, s.requests[r])
  {
    hide ValidateHost, RowOf;
    var q := s.requests[r];
    if q.phase.Written? {
      var w := q.phase.write;
      var id := UpsertRow(s.table, s.users, w).value;
      assert id in q.session.dirty && q.session.dirty[id].user == w.user;
      assert Has(q.session.dirty, w.user);
      DeleteKeepsWrite(s, user, w);
      hide UpsertRow, Has, Locked, Unique, WithoutUser;
    }
  }

  lemma DeleteKeepsInv(s: Sys, user: UserId)
    requires Inv(s) && !Locked(s, user)
    ensures Inv(DeleteStep(s, user))
  {
    var s' := DeleteStep(s, user);
    DeletedTableOk(s, user);
    HistoryKeepsOk(s.splitter, s.history, UserDeleted(user));
    hide ValidateHost, TableOk, HistoryOk, RequestOk, Locked;
    UniqueTable(s);
    forall p | p in s'.requests ensures RequestOk(s', p, s'.requests[p]) {
      DeleteKeepsRequest(s, user, p);
    }
  }

  lemma EnvironmentKeepsInv(s: Sys, user: UserId, key: Option<Key>)
    requires Inv(s)
    ensures Inv(s.(users := s.users + {user})) && Inv(s.(key := key))
  {
    hide ValidateHost;
    var s' := s.(users := s.users + {user});
    forall p | p in s'.requests ensures RequestOk(s', p, s'.requests[p]) {
      assert RequestOk(s, p, s.requests[p]);
    }
    forall p | p in s.requests ensures RequestOk(s.(key := key), p, s.requests[p]) {
    }
  }

  // ---------------------------------------------------------------- every run

  lemma ArriveKeepsInv(s: Sys, r: RequestId, kind: Kind, who: Option<UserId>, host: string, token: string)
    requires Inv(s)
    ensures Inv(Local(s, r, Move(NewRequest(kind, who, host, token), [], {})))
  {
    hide Inv;
    LocalKeepsInv(s, r, Move(NewRequest(kind, who, host, token), [], {}));
  }

  lemma StepKeepsInv(s: Sys, a: Action)
    requires Inv(s) && Enabled(s, a)
    ensures Inv(Step(s, a))
  {
    hide Inv, TilesPage, DoBegin, DoFetch, DoRead, DoLoadRow, DoUpsert, CommitStep, DeleteStep, Locked;
    match a
    case Arrive(r, kind, who, host, token) => ArriveKeepsInv(s, r, kind, who, host, token);
    case Begin(r) => BeginKeepsInv(s, r);
    case Fetch(r, factory, now) => FetchKeepsInv(s, r, factory, now);
    case RunUpsert(r, id, nonce, testedAt, clock) => UpsertKeepsInv(s, r, id, nonce, testedAt, clock);
    case Commit(r, end) =>
      if end.NotCommitted? {
        Ending(s, r, s.requests[r], ServerError, []);
      } else {
        CommitKeepsInv(s, r, end);
      }
    case Read(r) => ReadKeepsInv(s, r);
    case LoadRow(r) => LoadRowKeepsInv(s, r);
    case ShowTiles(r, factory, now) => Ending(s, r, s.requests[r], TilesReply(s, s.requests[r], factory, now), []);
    case Drop(r) => Ending(s, r, s.requests[r], Dropped, []);
    case AddUser(user) => EnvironmentKeepsInv(s, user, None);
    case DeleteUser(user) => DeleteKeepsInv(s, user);
    case ChangeKey(key) => EnvironmentKeepsInv(s, 0, key);
  }

  lemma StartIsOk(splitter: Splitter, users: set<UserId>, key: Option<Key>)
    ensures Inv(Start(splitter, users, key))
  {
  }

  lemma {:induction false} EveryRunKeepsInv(s: Sys, actions: seq<Action>)
    requires Inv(s) && CanRun(s, actions)
    ensures Inv(Exec(s, actions))
    decreases |actions|
  {
    if actions == [] {
    } else {
      EveryRunKeepsInv(s, actions[..|actions| - 1]);
      StepKeepsInv(Exec(s, actions[..|actions| - 1]), actions[|actions| - 1]);
    }
  }
}
