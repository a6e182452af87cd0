/** The credential table, its one atomic statement, and a database session with its cache of loaded
    instances. */
module Store {
  import opened Json
  import opened Cipher

  type UserId = nat
  type RowId = nat

  datatype Row = Row(user: UserId, host: string, secret: Ciphertext, testedAt: int, updatedAt: int)

  /** Keyed by primary key only: one row per user is a constraint to be kept, not built in. */
  type Table = map<RowId, Row>

  /** The values of one upsert: the id to use if a row is inserted, and the clock read by the statement. */
  datatype Write = Write(id: RowId, user: UserId, host: string, secret: Ciphertext, testedAt: int, clock: int)

  function RowFrom(w: Write): Row {
    Row(w.user, w.host, w.secret, w.testedAt, w.clock)
  }

  ghost predicate Unique(t: Table) {
    forall i, j :: i in t && j in t && t[i].user == t[j].user ==> i == j
  }

  ghost predicate References(t: Table, users: set<UserId>) {
    forall i :: i in t ==> t[i].user in users
  }

  predicate Has(t: Table, user: UserId) {
    exists i :: i in t && t[i].user == user
  }

  ghost function RowOf(t: Table, user: UserId): (id: RowId)
    requires Has(t, user)
    ensures id in t && t[id].user == user
  {
    var i :| i in t && t[i].user == user; i
  }

  datatype DbError = UniqueViolation | ForeignKeyViolation
  datatype DbResult<+T> = Success(value: T) | Error(error: DbError)

  /** `INSERT ... ON CONFLICT (user_id) DO UPDATE`: the row it leaves, and under which id. Only the
      user's unique constraint is arbitrated; a clash of primary keys still raises. */
  ghost function UpsertRow(t: Table, users: set<UserId>, w: Write): DbResult<RowId> {
    if Has(t, w.user) then Success(RowOf(t, w.user))
    else if w.id in t then Error(UniqueViolation)
    else if w.user !in users then Error(ForeignKeyViolation)
    else Success(w.id)
  }

  /** What the statement does to a table with one row per user: the row the user has is updated, whichever
      id came with the write; otherwise a row is inserted, unless its id is taken or its user is gone. */
  lemma UpsertRowExactly(t: Table, users: set<UserId>, w: Write)
    requires Unique(t)
    ensures forall i :: i in t && t[i].user == w.user ==> UpsertRow(t, users, w) == Success(i)
    ensures (forall i :: i in t ==> t[i].user != w.user) ==>
              if w.id in t then UpsertRow(t, users, w) == Error(UniqueViolation)
              else if w.user in users then UpsertRow(t, users, w) == Success(w.id)
              else UpsertRow(t, users, w) == Error(ForeignKeyViolation)
  {
  }

  // ---------------------------------------------------------------- sessions

  datatype Cached = Cached(row: Row, expired: bool)

  /** `identity` is the identity map; `dirty` holds the row versions written by the open transaction,
      which only this session sees. */
  datatype Session = Session(identity: map<RowId, Cached>, dirty: Table)

  const FRESH := Session(map[], map[])

  function Visible(s: Session, table: Table): Table {
    table + s.dirty
  }

  function ExpireAll(identity: map<RowId, Cached>): map<RowId, Cached> {
    map id | id in identity :: Cached(identity[id].row, true)
  }

  /** A select by user: a loaded instance that is not expired keeps its old values. */
  ghost function SessionGet(s: Session, table: Table, user: UserId): (Option<Row>, Session) {
    var visible := Visible(s, table);
    if !Has(visible, user) then (None, s)
    else
      var id := RowOf(visible, user);
      if id in s.identity && !s.identity[id].expired then (Some(s.identity[id].row), s)
      else (Some(visible[id]), s.(identity := s.identity[id := Cached(visible[id], false)]))
  }

  ghost function SessionUpsert(s: Session, table: Table, users: set<UserId>, w: Write): DbResult<Session> {
    match UpsertRow(Visible(s, table), users, w)
    case Error(e) => Error(e)
    case Success(id) => Success(Session(ExpireAll(s.identity), s.dirty[id := RowFrom(w)]))
  }

  /** Committing publishes the written rows, unless the unique index finds another row for a user.
      Sessions are made with `expire_on_commit` off. */
  ghost function SessionCommit(s: Session, table: Table): DbResult<(Table, Session)> {
    if !Unique(Visible(s, table)) then Error(UniqueViolation)
    else Success((Visible(s, table), s.(dirty := map[])))
  }

  /** The user's committed row, if there is one. */
  ghost function Committed(table: Table, user: UserId): Option<Row> {
    if Has(table, user) then Some(table[RowOf(table, user)]) else None
  }

  function SessionRollback(s: Session): Session {
    Session(ExpireAll(s.identity), map[])
  }

  // ---------------------------------------------------------------- the code, in place

  class Database {
    var table: Table
    var users: set<UserId>

    constructor (users: set<UserId>)
      ensures this.users == users && table == map[]
    {
      this.users := users;
      table := map[];
    }
  }

  class DbSession {
    const db: Database
    var identity: map<RowId, Cached>
    var dirty: Table

    ghost function State(): Session
      reads this
    {
      Session(identity, dirty)
    }

    constructor (db: Database)
      ensures this.db == db && State() == FRESH
    {
      this.db := db;
      identity, dirty := map[], map[];
    }

    method GetHaCredential(user: UserId) returns (r: Option<Row>)
      requires Unique(Visible(State(), db.table))
      modifies this`identity
      ensures (r, State()) == SessionGet(old(State()), db.table, user)
    {
      var visible := db.table + dirty;
      if !Has(visible, user) {
        return None;
      }
      var id :| id in visible && visible[id].user == user;
      if id !in identity || identity[id].expired {
        identity := identity[id := Cached(visible[id], false)];
      }
      r := Some(identity[id].row);
    }

    method UpsertHaCredential(w: Write) returns (r: DbResult<()>)
      requires Unique(Visible(State(), db.table))
      modifies this
      ensures SessionUpsert(old(State()), db.table, db.users, w)
           == if r.Success? then Success(State()) else Error(r.error)
      ensures r.Error? ==> State() == old(State())
    {
      var visible := db.table + dirty;
      var id := w.id;
      if Has(visible, w.user) {
        id :| id in visible && visible[id].user == w.user;
      } else if w.id in visible {
        return Error(UniqueViolation);
      } else if w.user !in db.users {
        return Error(ForeignKeyViolation);
      }
      dirty := dirty[id := RowFrom(w)];
      identity := ExpireAll(identity);
      r := Success(());
    }

    method Commit() returns (r: DbResult<()>)
      modifies this`dirty, db`table
      ensures SessionCommit(old(State()), old(db.table))
           == if r.Success? then Success((db.table, State())) else Error(r.error)
      ensures r.Error? ==> State() == old(State()) && db.table == old(db.table)
    {
      var merged := db.table + dirty;
      var clash := exists i, j :: i in merged && j in merged && i != j && merged[i].user == merged[j].user;
      if clash {
        return Error(UniqueViolation);
      }
      db.table := merged;
      dirty := map[];
      r := Success(());
    }

    method Rollback()
      modifies this
      ensures State() == SessionRollback(old(State()))
      ensures Visible(State(), db.table) == db.table
      ensures forall user :: SessionGet(State(), db.table, user).0 == Committed(db.table, user)
    {
      dirty := map[];
      identity := ExpireAll(identity);
    }
  }
}
