/** One session's cache of loaded instances, over every sequence of what can happen to the session. */
module SessionCache {
  import opened Json
  import opened Store

  /** One session with the committed table around it. */
  datatype Conn = Conn(session: Session, table: Table, users: set<UserId>)

  /** What can happen to a session: its own operations, the garbage collector dropping an instance, and
      other sessions committing. */
  datatype SessionOp =
    | Get(user: UserId)
    | Upsert(write: Write)
    | Commit
    | Rollback
    | Evict(id: RowId)
    | Others(table: Table)

  /** The row locks of an open transaction: nobody else adds, changes or removes a row of a user it has
      written, and no new row reuses one of its ids. */
  ghost predicate RespectsLocks(before: Table, after: Table, dirty: Table) {
    && (forall i, d :: i in before && d in dirty && before[i].user == dirty[d].user
          ==> i in after && after[i] == before[i])
    && (forall i, d :: i in after && d in dirty && after[i].user == dirty[d].user
          ==> i in before && after[i] == before[i])
    && (forall i :: i in after && i in dirty ==> i in before)
  }

  ghost predicate CanApply(c: Conn, op: SessionOp) {
    match op
    case Upsert(w) => SessionUpsert(c.session, c.table, c.users, w).Success?
    case Commit => SessionCommit(c.session, c.table).Success?
    case Others(t) => Unique(t) && RespectsLocks(c.table, t, c.session.dirty)
    case _ => true
  }

  ghost function Apply(c: Conn, op: SessionOp): Conn
    requires CanApply(c, op)
  {
    match op
    case Get(u) => c.(session := SessionGet(c.session, c.table, u).1)
    case Upsert(w) => c.(session := SessionUpsert(c.session, c.table, c.users, w).value)
    case Commit =>
      var (t, s) := SessionCommit(c.session, c.table).value;
      Conn(s, t, c.users)
    case Rollback => c.(session := SessionRollback(c.session))
    case Evict(id) => c.(session := c.session.(identity := c.session.identity - {id}))
    case Others(t) => c.(table := t)
  }

  ghost predicate CanRun(c: Conn, ops: seq<SessionOp>)
    decreases |ops|
  {
    ops == [] || (CanApply(c, ops[0]) && CanRun(Apply(c, ops[0]), ops[1..]))
  }

  ghost function Run(c: Conn, ops: seq<SessionOp>): Conn
    requires CanRun(c, ops)
    decreases |ops|
  {
    if ops == [] then c else Run(Apply(c, ops[0]), ops[1..])
  }

  /** Every dirty row is consistent with the committed table it overrides, and one row per user is visible. */
  ghost predicate ConnOk(c: Conn) {
    && Unique(c.table)
    && Unique(Visible(c.session, c.table))
    && (forall i :: i in c.session.dirty && i in c.table ==> c.table[i].user == c.session.dirty[i].user)
  }

  /** Where a dirty row overrides a committed one, nobody else has changed that one. */
  lemma OthersKeepDirtyUsers(c: Conn, t: Table)
    requires ConnOk(c) && RespectsLocks(c.table, t, c.session.dirty)
    ensures forall i :: i in c.session.dirty && i in t ==> t[i].user == c.session.dirty[i].user
  {
  }

  lemma OthersKeepVisibleUnique(c: Conn, t: Table)
    requires ConnOk(c) && Unique(t) && RespectsLocks(c.table, t, c.session.dirty)
    ensures Unique(Visible(c.session, t))
  {
    var dirty := c.session.dirty;
    var before := Visible(c.session, c.table);
    var after := Visible(c.session, t);
    assert forall i :: i in dirty ==> before[i] == dirty[i] && after[i] == dirty[i];
    assert forall i :: i in after && i !in dirty ==> i in t && after[i] == t[i];
    forall i, d | i in after && d in dirty && after[i].user == dirty[d].user ensures i == d {
      assert before[i] == after[i];
    }
  }

  lemma OthersKeepUnique(c: Conn, t: Table)
    requires ConnOk(c) && Unique(t) && RespectsLocks(c.table, t, c.session.dirty)
    ensures ConnOk(c.(table := t))
  {
    OthersKeepDirtyUsers(c, t);
    OthersKeepVisibleUnique(c, t);
    hide RespectsLocks, Unique;
  }

  lemma UpsertRowKeepsUnique(t: Table, users: set<UserId>, w: Write)
    requires Unique(t) && UpsertRow(t, users, w).Success?
    ensures var id := UpsertRow(t, users, w).value;
            Unique(t[id := RowFrom(w)]) && (id in t ==> t[id].user == w.user)
  {
  }

  lemma UpsertKeepsOk(c: Conn, w: Write)
    requires ConnOk(c) && CanApply(c, Upsert(w))
    ensures ConnOk(Apply(c, Upsert(w)))
  {
    UpsertRowKeepsUnique(Visible(c.session, c.table), c.users, w);
    hide Unique, Has, RowOf, UpsertRow;
    var id := UpsertRow(Visible(c.session, c.table), c.users, w).value;
    var c' := Apply(c, Upsert(w));
    assert Visible(c'.session, c'.table) == Visible(c.session, c.table)[id := RowFrom(w)];
    assert id in c.table ==> Visible(c.session, c.table)[id].user == w.user;
  }

  lemma ApplyKeepsOk(c: Conn, op: SessionOp)
    requires ConnOk(c) && CanApply(c, op)
    ensures ConnOk(Apply(c, op))
  {
    var c' := Apply(c, op);
    match op
    case Upsert(w) => UpsertKeepsOk(c, w);
    case Others(t) => OthersKeepUnique(c, t);
    case Rollback => assert Visible(c'.session, c'.table) == c.table;
    case Commit => assert Visible(c'.session, c'.table) == c'.table;
    case _ =>
  }

  ghost predicate HoldsAt(c: Conn, w: Write, id: RowId)
    requires id in c.session.dirty
  {
    && c.session.dirty[id] == RowFrom(w)
    && (id in c.session.identity && !c.session.identity[id].expired ==> c.session.identity[id].row == RowFrom(w))
  }

  /** The open transaction wrote w, and no loaded instance shows that row otherwise. */
  ghost predicate Holds(c: Conn, w: Write) {
    exists id :: id in c.session.dirty && HoldsAt(c, w, id)
  }

  /** Operations that end the transaction, or overwrite this user's row in it. */
  predicate Ends(op: SessionOp, user: UserId) {
    op.Commit? || op.Rollback? || (op.Upsert? && op.write.user == user)
  }

  lemma ApplyKeepsHolding(c: Conn, op: SessionOp, w: Write)
    requires ConnOk(c) && CanApply(c, op) && Holds(c, w) && !Ends(op, w.user)
    ensures Holds(Apply(c, op), w)
  {
    var id :| id in c.session.dirty && HoldsAt(c, w, id);
    var c' := Apply(c, op);
    assert id in c'.session.dirty && HoldsAt(c', w, id) by {
      if op.Upsert? {
        var visible := Visible(c.session, c.table);
        assert visible[id].user == w.user;
      }
    }
  }

  lemma {:induction false} RunKeepsHolding(c: Conn, ops: seq<SessionOp>, w: Write)
    requires ConnOk(c) && CanRun(c, ops) && Holds(c, w)
    requires forall op :: op in ops ==> !Ends(op, w.user)
    ensures ConnOk(Run(c, ops)) && Holds(Run(c, ops), w)
    decreases |ops|
  {
    if ops == [] {
    } else {
      ApplyKeepsOk(c, ops[0]);
      ApplyKeepsHolding(c, ops[0], w);
      RunKeepsHolding(Apply(c, ops[0]), ops[1..], w);
    }
  }

  /** After a session's own upsert, and whatever happens until that transaction ends or writes the user
      again, reading the user's row gives exactly the values written: never an older loaded instance. */
  lemma ReadsOwnWrite(c: Conn, w: Write, ops: seq<SessionOp>)
    requires ConnOk(c) && CanApply(c, Upsert(w))
    requires CanRun(Apply(c, Upsert(w)), ops)
    requires forall op :: op in ops ==> !Ends(op, w.user)
    ensures var after := Run(Apply(c, Upsert(w)), ops);
            SessionGet(after.session, after.table, w.user).0 == Some(RowFrom(w))
  {
    var c' := Apply(c, Upsert(w));
    ApplyKeepsOk(c, Upsert(w));
    var id := UpsertRow(Visible(c.session, c.table), c.users, w).value;
    assert id in c'.session.dirty && HoldsAt(c', w, id);
    RunKeepsHolding(c', ops, w);
    var after := Run(c', ops);
    var kept :| kept in after.session.dirty && HoldsAt(after, w, kept);
    var visible := Visible(after.session, after.table);
    assert kept in visible && visible[kept].user == w.user;
  }

  lemma {:induction false} RunKeepsOk(c: Conn, ops: seq<SessionOp>)
    requires ConnOk(c) && CanRun(c, ops)
    ensures ConnOk(Run(c, ops))
    decreases |ops|
  {
    if ops == [] {
    } else {
      ApplyKeepsOk(c, ops[0]);
      RunKeepsOk(Apply(c, ops[0]), ops[1..]);
    }
  }

  /** The same from a new session on any table with one row per user, after any earlier history: the row
      read has each of the written values. */
  lemma EverySessionReadsItsOwnWrite(table: Table, users: set<UserId>, earlier: seq<SessionOp>, w: Write,
                                     later: seq<SessionOp>)
    requires Unique(table)
    requires CanRun(Conn(FRESH, table, users), earlier)
    requires CanApply(Run(Conn(FRESH, table, users), earlier), Upsert(w))
    requires CanRun(Apply(Run(Conn(FRESH, table, users), earlier), Upsert(w)), later)
    requires forall op :: op in later ==> !Ends(op, w.user)
    ensures var after := Run(Apply(Run(Conn(FRESH, table, users), earlier), Upsert(w)), later);
            var row := SessionGet(after.session, after.table, w.user).0;
            && row.Some? && row.value.user == w.user && row.value.host == w.host && row.value.secret == w.secret
            && row.value.testedAt == w.testedAt && row.value.updatedAt == w.clock
  {
    var c := Conn(FRESH, table, users);
    assert Visible(c.session, table) == table;
    RunKeepsOk(c, earlier);
    ReadsOwnWrite(Run(c, earlier), w, later);
  }

  /** Why the expiry is needed: a row once loaded is shown as it was, whatever others commit to it. */
  lemma LoadedRowsStayAsLoaded(c: Conn, user: UserId, id: RowId, others: Table)
    requires ConnOk(c) && CanApply(Apply(c, Get(user)), Others(others))
    requires id in Visible(c.session, c.table) && Visible(c.session, c.table)[id].user == user
    requires id in others && others[id].user == user
    ensures var loaded := SessionGet(c.session, c.table, user).0;
            var c' := Apply(Apply(c, Get(user)), Others(others));
            loaded.Some? && c'.table == others && SessionGet(c'.session, c'.table, user).0 == loaded
  {
    var c1 := Apply(c, Get(user));
    OthersKeepVisibleUnique(c1, others);
    assert RowOf(Visible(c.session, c.table), user) == id;
    assert id in Visible(c1.session, others) && Visible(c1.session, others)[id].user == user by {
      if id in c1.session.dirty {
        assert c1.session.dirty == c.session.dirty;
      }
    }
    assert RowOf(Visible(c1.session, others), user) == id;
  }

  /** Unless its instance is collected meanwhile: then it is read again as it is. */
  lemma CollectedRowsAreReadAgain(c: Conn, user: UserId, id: RowId)
    requires ConnOk(c) && id in Visible(c.session, c.table) && Visible(c.session, c.table)[id].user == user
    ensures var c' := Apply(c, Evict(id));
            c'.table == c.table && SessionGet(c'.session, c'.table, user).0 == Some(Visible(c.session, c.table)[id])
  {
    assert RowOf(Visible(c.session, c.table), user) == id;
  }

  /** A commit goes through exactly when what the session sees has one row per user, and publishes that;
      loaded instances are kept as they are. */
  lemma CommitPublishesWhatIsSeen(s: Session, table: Table)
    ensures SessionCommit(s, table).Success?
       <==> var seen := Visible(s, table);
            forall i, j :: i in seen && j in seen && seen[i].user == seen[j].user ==> i == j
    ensures SessionCommit(s, table).Success? ==>
              var (t, s') := SessionCommit(s, table).value;
              && s'.identity == s.identity && s'.dirty == map[]
              && t.Keys == table.Keys + s.dirty.Keys
              && forall i :: i in t ==> t[i] == if i in s.dirty then s.dirty[i] else table[i]
  {
  }

  /** After a rollback a read shows the committed row again: neither the abandoned write nor any instance
      loaded before. */
  lemma RollbackForgetsEverything(s: Session, table: Table, user: UserId)
    ensures SessionGet(SessionRollback(s), table, user).0 == Committed(table, user)
  {
    assert Visible(SessionRollback(s), table) == table;
  }
}
