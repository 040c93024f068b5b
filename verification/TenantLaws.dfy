/** What each call of a tenant's scope does to the shared tables, and that a tenant reads what it wrote whatever others do. */
module TenantLaws {
  import opened Options
  import opened JsonTree
  import opened TenantScope

  // ---- Other tenants in between ----

  datatype Request = Request(user: User, op: Op)

  /** Calls of any users, one after the other. */
  function RunAll(calls: seq<Request>, db: Database): Database {
    if calls == [] then db else RunAll(calls[1..], Exec(calls[0].user, calls[0].op, db).0)
  }

  predicate ByOthers(u: User, calls: seq<Request>) {
    forall c <- calls :: c.user != u
  }

  lemma {:induction false} OthersKeepView(u: User, calls: seq<Request>, db: Database)
    requires ByOthers(u, calls)
    ensures ViewOf(RunAll(calls, db), u) == ViewOf(db, u)
    decreases |calls|
  {
    if calls != [] {
      var c := calls[0];
      assert c in calls && forall d <- calls[1..] :: d in calls;
      CallIsolated(c.user, c.op, db, u);
      OthersKeepView(u, calls[1..], Exec(c.user, c.op, db).0);
    }
  }

  /** The database after a call of `u` and whatever others do then. */
  function Later(u: User, op: Op, calls: seq<Request>, db: Database): Database {
    RunAll(calls, Exec(u, op, db).0)
  }

  /** The database after a call. */
  function After(u: User, op: Op, db: Database): Database {
    Exec(u, op, db).0
  }

  /** The reply to a call. */
  function Asked(u: User, op: Op, db: Database): Reply {
    Exec(u, op, db).1
  }

  predicate Reading(op: Op) {
    || op.GetJob? || op.JobFailureReason? || op.ListJobs? || op.GetSandboxJob? || op.ListRoutines? || op.GetRoutine?
    || op.OwnsConversation? || op.ListMessages? || op.GetSetting? || op.ListSettings?
  }

  /** A read changes nothing, and what others do after a call of `u` does not change what `u` reads then. */
  lemma ReadsBack(u: User, op: Op, read: Op, calls: seq<Request>, db: Database)
    requires Reading(read) && ByOthers(u, calls)
    ensures Exec(u, read, db).0 == db
    ensures Asked(u, read, Later(u, op, calls, db)) == Asked(u, read, After(u, op, db))
  {
    var after := After(u, op, db);
    OthersKeepView(u, calls, after);
    ReplyLeaksOnlyClashes(u, read, RunAll(calls, after), after);
  }

  // ---- Call by call ----

  predicate Mine<T>(table: map<Id, Owned<T>>, u: User, id: Id) {
    id in table && table[id].owner == u
  }

  /** The tables differ at most at `id`. */
  ghost predicate SameBut<T>(a: map<Id, T>, b: map<Id, T>, id: Id) {
    forall other | other != id :: Lookup(a, other) == Lookup(b, other)
  }

  /** A listing: exactly the rows of `u`. */
  ghost predicate Lists<T>(rows: map<Id, T>, table: map<Id, Owned<T>>, u: User) {
    && (forall id | id in rows :: Mine(table, u, id) && rows[id] == table[id].row)
    && (forall id | id in table :: table[id].owner == u ==> id in rows)
  }

  lemma ReadJobLaws(u: User, id: Id, db: Database)
    ensures Asked(u, GetJob(id), db) == MaybeJob(if Mine(db.jobs, u, id) then Some(db.jobs[id].row) else None)
    ensures Asked(u, JobFailureReason(id), db) == MaybeText(if Mine(db.jobs, u, id) then db.jobs[id].row.failureReason else None)
    ensures Asked(u, GetSandboxJob(id), db) == MaybeJob(if Mine(db.sandboxJobs, u, id) then Some(db.sandboxJobs[id].row) else None)
    ensures Asked(u, ListJobs, db).Jobs? && Lists(Asked(u, ListJobs, db).jobs, db.jobs, u)
  {
  }

  lemma ReadRoutineLaws(u: User, id: Id, db: Database)
    ensures Asked(u, GetRoutine(id), db) == MaybeRoutine(if Mine(db.routines, u, id) then Some(db.routines[id].row) else None)
    ensures Asked(u, ListRoutines, db).Routines? && Lists(Asked(u, ListRoutines, db).routines, db.routines, u)
  {
  }

  lemma ReadConversationLaws(u: User, id: Id, db: Database)
    ensures Asked(u, OwnsConversation(id), db) == Owns(Mine(db.conversations, u, id))
    ensures Asked(u, ListMessages(id), db) == if Mine(db.conversations, u, id) then Messages(db.conversations[id].row.messages) else NotFound
  {
  }

  lemma ReadSettingLaws(u: User, key: string, db: Database)
    ensures Asked(u, GetSetting(key), db) == MaybeValue(if u in db.settings && key in db.settings[u] then Some(db.settings[u][key]) else None)
    ensures Asked(u, ListSettings, db) == Values(if u in db.settings then db.settings[u] else map[])
  {
  }

  /** A job's status is changed if the job is the caller's, and nothing else is. */
  lemma UpdateJobLaws(u: User, id: Id, status: string, reason: Option<string>, db: Database)
    ensures var op := UpdateJobStatus(id, status, reason);
            var after := After(u, op, db);
            && Asked(u, op, db) == (if Mine(db.jobs, u, id) then Done else NotFound)
            && after == db.(jobs := after.jobs) && SameBut(after.jobs, db.jobs, id)
            && (!Mine(db.jobs, u, id) ==> after == db)
            && (Mine(db.jobs, u, id) ==> Asked(u, GetJob(id), after) == MaybeJob(Some(Job(status, reason))))
  {
    ReadJobLaws(u, id, After(u, UpdateJobStatus(id, status, reason), db));
  }

  /** Some other routine of `u` has the name. */
  predicate NameInUse(db: Database, u: User, id: Id, name: string) {
    exists other | other in db.routines :: other != id && db.routines[other].owner == u && db.routines[other].row.name == name
  }

  lemma NameInUseIs(db: Database, u: User, id: Id, name: string)
    ensures NameTaken(RowsOf(db.routines, u), id, name) <==> NameInUse(db, u, id, name)
  {
    var rows := RowsOf(db.routines, u);
    if NameTaken(rows, id, name) {
      var other :| other in rows && other != id && rows[other].name == name;
      assert other in db.routines && db.routines[other].owner == u;
    }
    if NameInUse(db, u, id, name) {
      var other :| other in db.routines && other != id && db.routines[other].owner == u && db.routines[other].row.name == name;
      assert other in rows;
    }
  }

  /** What a write to the routines leaves: at most the row at `id` changes. */
  ghost predicate OnlyRoutine(after: Database, db: Database, id: Id) {
    after == db.(routines := after.routines) && SameBut(after.routines, db.routines, id)
  }

  lemma CreateRoutineLaws(u: User, id: Id, routine: Routine, db: Database)
    ensures var op := CreateRoutine(id, routine);
            var after := After(u, op, db);
            var ok := id !in db.routines && !NameInUse(db, u, id, routine.name);
            && Asked(u, op, db) == (if ok then Done else Conflict) && OnlyRoutine(after, db, id) && (!ok ==> after == db)
            && (ok ==> Asked(u, GetRoutine(id), after) == MaybeRoutine(Some(routine)))
  {
    NameInUseIs(db, u, id, routine.name);
    ReadRoutineLaws(u, id, After(u, CreateRoutine(id, routine), db));
  }

  lemma UpdateRoutineLaws(u: User, id: Id, routine: Routine, db: Database)
    ensures var op := UpdateRoutine(id, routine);
            var after := After(u, op, db);
            var ok := Mine(db.routines, u, id) && !NameInUse(db, u, id, routine.name);
            && Asked(u, op, db) == (if ok then Done else if Mine(db.routines, u, id) then Conflict else NotFound)
            && OnlyRoutine(after, db, id) && (!ok ==> after == db)
            && (ok ==> Asked(u, GetRoutine(id), after) == MaybeRoutine(Some(routine)))
  {
    NameInUseIs(db, u, id, routine.name);
    ReadRoutineLaws(u, id, After(u, UpdateRoutine(id, routine), db));
  }

  lemma DeleteRoutineLaws(u: User, id: Id, db: Database)
    ensures var op := DeleteRoutine(id);
            var after := After(u, op, db);
            && Asked(u, op, db) == (if Mine(db.routines, u, id) then Deleted(true) else NotFound)
            && OnlyRoutine(after, db, id) && (!Mine(db.routines, u, id) ==> after == db)
            && (Mine(db.routines, u, id) ==> id !in after.routines)
  {
  }

  /** What a write to the conversations leaves: at most the row at `id` changes, and its owner never does. */
  ghost predicate OnlyConversation(after: Database, db: Database, id: Id) {
    && after == db.(conversations := after.conversations) && SameBut(after.conversations, db.conversations, id)
    && (id in db.conversations ==> id in after.conversations && after.conversations[id].owner == db.conversations[id].owner)
  }

  /** The same channel and thread, which no call changes. */
  predicate SamePlace(c: Conversation, d: Conversation) {
    c.channel == d.channel && c.thread == d.thread
  }

  /** A message is added at the end and the conversation is touched. */
  lemma AddMessageLaws(u: User, id: Id, role: string, text: string, now: nat, db: Database)
    ensures var op := AddMessage(id, role, text, now);
            var after := After(u, op, db);
            && Asked(u, op, db) == (if Mine(db.conversations, u, id) then Done else NotFound)
            && OnlyConversation(after, db, id) && (!Mine(db.conversations, u, id) ==> after == db)
            && (Mine(db.conversations, u, id) ==>
                  var c, d := db.conversations[id].row, after.conversations[id].row;
                  SamePlace(c, d) && c.source == d.source && c.metadata == d.metadata && d.messages == c.messages + [(role, text)] && d.touched == now)
  {
  }

  /** A touch changes the time alone. */
  lemma TouchLaws(u: User, id: Id, now: nat, db: Database)
    ensures var op := Touch(id, now);
            var after := After(u, op, db);
            && Asked(u, op, db) == (if Mine(db.conversations, u, id) then Done else NotFound)
            && OnlyConversation(after, db, id) && (!Mine(db.conversations, u, id) ==> after == db)
            && (Mine(db.conversations, u, id) ==>
                  var c, d := db.conversations[id].row, after.conversations[id].row;
                  SamePlace(c, d) && c.source == d.source && c.metadata == d.metadata && c.messages == d.messages && d.touched == now)
  {
  }

  /** One field of the metadata is written, and nothing else. */
  lemma SetMetadataLaws(u: User, id: Id, key: string, value: Json, db: Database)
    ensures var op := SetMetadata(id, key, value);
            var after := After(u, op, db);
            && Asked(u, op, db) == (if Mine(db.conversations, u, id) then Done else NotFound)
            && OnlyConversation(after, db, id) && (!Mine(db.conversations, u, id) ==> after == db)
            && (Mine(db.conversations, u, id) ==>
                  var c, d := db.conversations[id].row, after.conversations[id].row;
                  && SamePlace(c, d) && c.source == d.source && c.messages == d.messages && c.touched == d.touched
                  && Lookup(d.metadata, key) == Some(value)
                  && forall other | other != key :: Lookup(d.metadata, other) == Lookup(c.metadata, other))
  {
  }

  /** Ensuring a conversation whose id is new: it is the caller's, empty, with the channel as its source. */
  lemma EnsureNewLaws(u: User, id: Id, channel: string, thread: Option<string>, now: nat, db: Database)
    requires id !in db.conversations
    ensures var op := EnsureConversation(id, channel, thread, now);
            var after := After(u, op, db);
            && Asked(u, op, db) == Ensured(true) && OnlyConversation(after, db, id) && Mine(after.conversations, u, id)
            && var d := after.conversations[id].row;
               && d.channel == channel && d.thread == thread && d.source == Some(channel)
               && d.messages == [] && d.metadata == map[] && d.touched == now
  {
  }

  /**
   * Ensuring one that is there: one of the caller's on the same channel is touched, keeps its content, and gets the channel as
   * its source if it has none; any other refuses.
   */
  lemma EnsureAgainLaws(u: User, id: Id, channel: string, thread: Option<string>, now: nat, db: Database)
    requires id in db.conversations
    ensures var op := EnsureConversation(id, channel, thread, now);
            var after := After(u, op, db);
            var ok := Mine(db.conversations, u, id) && db.conversations[id].row.channel == channel;
            && Asked(u, op, db) == Ensured(ok) && OnlyConversation(after, db, id) && (!ok ==> after == db)
            && (ok ==>
                  var c, d := db.conversations[id].row, after.conversations[id].row;
                  && SamePlace(c, d) && c.messages == d.messages && c.metadata == d.metadata && d.touched == now
                  && (c.source.Some? ==> d.source == c.source) && (c.source.None? ==> d.source == Some(channel)))
  {
  }

  /** What a write to the settings of `u` leaves: at most the key changes. */
  ghost predicate OnlySetting(after: Database, db: Database, u: User, key: string) {
    && after == db.(settings := after.settings)
    && (forall v | v != u :: Lookup(after.settings, v) == Lookup(db.settings, v))
    && (forall other | other != key :: Lookup(SettingsOf(after.settings, u), other) == Lookup(SettingsOf(db.settings, u), other))
  }

  lemma SetSettingLaws(u: User, key: string, value: Json, db: Database)
    ensures var op := SetSetting(key, value);
            var after := After(u, op, db);
            && Asked(u, op, db) == Done && OnlySetting(after, db, u, key)
            && Asked(u, GetSetting(key), after) == MaybeValue(Some(value))
  {
    ReadSettingLaws(u, key, After(u, SetSetting(key, value), db));
  }

  lemma DeleteSettingLaws(u: User, key: string, db: Database)
    ensures var op := DeleteSetting(key);
            var after := After(u, op, db);
            && Asked(u, op, db) == Deleted(u in db.settings && key in db.settings[u]) && OnlySetting(after, db, u, key)
            && Asked(u, GetSetting(key), after) == MaybeValue(None)
  {
    ReadSettingLaws(u, key, After(u, DeleteSetting(key), db));
  }
}
