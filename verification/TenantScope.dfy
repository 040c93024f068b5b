/** `TenantScope`: ownership-checked access to a shared database, and why tenants cannot see each other. */
module TenantScope {
  import opened Options
  import opened JsonTree

  type User = string
  type Id = nat

  datatype Job = Job(status: string, failureReason: Option<string>)
  datatype Conversation = Conversation(
    channel: string,
    thread: Option<string>,
    source: Option<string>,
    messages: seq<(string, string)>,
    metadata: map<string, Json>,
    touched: nat)
  datatype Routine = Routine(name: string, body: string)

  /** A row with the user it belongs to. */
  datatype Owned<T> = Owned(owner: User, row: T)

  datatype Database = Database(
    jobs: map<Id, Owned<Job>>,
    sandboxJobs: map<Id, Owned<Job>>,
    routines: map<Id, Owned<Routine>>,
    conversations: map<Id, Owned<Conversation>>,
    settings: map<User, map<string, Json>>)

  /** The calls a scope offers on these tables. */
  datatype Op =
    | GetJob(id: Id)
    | JobFailureReason(id: Id)
    | UpdateJobStatus(id: Id, status: string, reason: Option<string>)
    | ListJobs
    | GetSandboxJob(id: Id)
    | ListRoutines
    | GetRoutine(id: Id)
    | CreateRoutine(id: Id, routine: Routine)
    | UpdateRoutine(id: Id, routine: Routine)
    | DeleteRoutine(id: Id)
    | EnsureConversation(id: Id, channel: string, thread: Option<string>, now: nat)
    | OwnsConversation(id: Id)
    | AddMessage(id: Id, role: string, text: string, now: nat)
    | ListMessages(id: Id)
    | Touch(id: Id, now: nat)
    | SetMetadata(id: Id, key: string, value: Json)
    | GetSetting(key: string)
    | SetSetting(key: string, value: Json)
    | DeleteSetting(key: string)
    | ListSettings

  datatype Reply =
    | Done
    | NotFound
    | Conflict
    | MaybeJob(job: Option<Job>)
    | MaybeText(text: Option<string>)
    | Jobs(jobs: map<Id, Job>)
    | MaybeRoutine(routine: Option<Routine>)
    | Routines(routines: map<Id, Routine>)
    | Messages(messages: seq<(string, string)>)
    | MaybeValue(value: Option<Json>)
    | Values(values: map<string, Json>)
    | Deleted(existed: bool)
    | Ensured(ok: bool)
    | Owns(yes: bool)

  // ---- Tables ----

  /** The rows of one user. */
  function RowsOf<T>(table: map<Id, Owned<T>>, u: User): map<Id, T> {
    map id | id in table && table[id].owner == u :: table[id].row
  }

  function Find<T>(table: map<Id, Owned<T>>, u: User, id: Id): Option<T> {
    if id in table && table[id].owner == u then Some(table[id].row) else None
  }

  function SettingsOf(table: map<User, map<string, Json>>, u: User): map<string, Json> {
    if u in table then table[u] else map[]
  }

  /** What one user's rows are, in every table. */
  datatype View = View(
    jobs: map<Id, Job>,
    sandboxJobs: map<Id, Job>,
    routines: map<Id, Routine>,
    conversations: map<Id, Conversation>,
    settings: map<string, Json>)

  function ViewOf(db: Database, u: User): View {
    View(RowsOf(db.jobs, u), RowsOf(db.sandboxJobs, u), RowsOf(db.routines, u), RowsOf(db.conversations, u), SettingsOf(db.settings, u))
  }

  // ---- The scope ----

  function JobOp(u: User, op: Op, db: Database): (Database, Reply)
    requires op.GetJob? || op.JobFailureReason? || op.UpdateJobStatus? || op.ListJobs? || op.GetSandboxJob?
  {
    match op
    case GetJob(id) => (db, MaybeJob(Find(db.jobs, u, id)))
    case JobFailureReason(id) =>
      (db, MaybeText(if Find(db.jobs, u, id).None? then None else db.jobs[id].row.failureReason))
    case UpdateJobStatus(id, status, reason) =>
      if Find(db.jobs, u, id).None? then (db, NotFound)
      else (db.(jobs := db.jobs[id := Owned(db.jobs[id].owner, Job(status, reason))]), Done)
    case ListJobs => (db, Jobs(RowsOf(db.jobs, u)))
    case GetSandboxJob(id) => (db, MaybeJob(Find(db.sandboxJobs, u, id)))
  }

  /** Some other routine has the name; names are unique for each user. */
  predicate NameTaken(rows: map<Id, Routine>, id: Id, name: string) {
    exists other | other in rows :: other != id && rows[other].name == name
  }

  /** Routines carry the scope's user, as `create_routine` asserts; an update never changes the owner. */
  function RoutineOp(u: User, op: Op, db: Database): (Database, Reply)
    requires op.ListRoutines? || op.GetRoutine? || op.CreateRoutine? || op.UpdateRoutine? || op.DeleteRoutine?
  {
    match op
    case ListRoutines => (db, Routines(RowsOf(db.routines, u)))
    case GetRoutine(id) => (db, MaybeRoutine(Find(db.routines, u, id)))
    case CreateRoutine(id, routine) =>
      if id in db.routines || NameTaken(RowsOf(db.routines, u), id, routine.name) then (db, Conflict)
      else (db.(routines := db.routines[id := Owned(u, routine)]), Done)
    case UpdateRoutine(id, routine) =>
      if Find(db.routines, u, id).None? then (db, NotFound)
      else if NameTaken(RowsOf(db.routines, u), id, routine.name) then (db, Conflict)
      else (db.(routines := db.routines[id := Owned(db.routines[id].owner, routine)]), Done)
    case DeleteRoutine(id) =>
      if Find(db.routines, u, id).None? then (db, NotFound) else (db.(routines := db.routines - {id}), Deleted(true))
  }

  function UpdateConversation(db: Database, id: Id, c: Conversation): Database
    requires id in db.conversations
  {
    db.(conversations := db.conversations[id := Owned(db.conversations[id].owner, c)])
  }

  function NewConversation(channel: string, thread: Option<string>, now: nat): Conversation {
    Conversation(channel, thread, Some(channel), [], map[], now)
  }

  /** A conversation that is ensured again is touched, and keeps the channel it came from if it has one. */
  function Ensure(c: Conversation, channel: string, now: nat): Conversation {
    c.(touched := now, source := if c.source.Some? then c.source else Some(channel))
  }

  /** The insert of `ensure_conversation`, which updates a row only if user and channel are the same. */
  function EnsureOp(u: User, op: Op, db: Database): (Database, Reply)
    requires op.EnsureConversation?
  {
    if op.id !in db.conversations then
      (db.(conversations := db.conversations[op.id := Owned(u, NewConversation(op.channel, op.thread, op.now))]), Ensured(true))
    else
      var c := db.conversations[op.id];
      if c.owner == u && c.row.channel == op.channel then (UpdateConversation(db, op.id, Ensure(c.row, op.channel, op.now)), Ensured(true))
      else (db, Ensured(false))
  }

  function ConversationOp(u: User, op: Op, db: Database): (Database, Reply)
    requires op.AddMessage? || op.ListMessages? || op.Touch? || op.SetMetadata?
  {
    if Find(db.conversations, u, op.id).None? then (db, NotFound)
    else
      var c := db.conversations[op.id].row;
      match op
      case AddMessage(id, role, text, now) => (UpdateConversation(db, id, c.(messages := c.messages + [(role, text)], touched := now)), Done)
      case ListMessages(_) => (db, Messages(c.messages))
      case Touch(id, now) => (UpdateConversation(db, id, c.(touched := now)), Done)
      case SetMetadata(id, key, value) => (UpdateConversation(db, id, c.(metadata := c.metadata[key := value])), Done)
  }

  function SettingOp(u: User, op: Op, db: Database): (Database, Reply)
    requires op.GetSetting? || op.SetSetting? || op.DeleteSetting? || op.ListSettings?
  {
    var mine := SettingsOf(db.settings, u);
    match op
    case GetSetting(key) => (db, MaybeValue(Lookup(mine, key)))
    case SetSetting(key, value) => (db.(settings := db.settings[u := mine[key := value]]), Done)
    case DeleteSetting(key) => (db.(settings := db.settings[u := mine - {key}]), Deleted(key in mine))
    case ListSettings => (db, Values(mine))
  }

  function Exec(u: User, op: Op, db: Database): (Database, Reply) {
    match op
    case GetJob(_) => JobOp(u, op, db)
    case JobFailureReason(_) => JobOp(u, op, db)
    case UpdateJobStatus(_, _, _) => JobOp(u, op, db)
    case ListJobs => JobOp(u, op, db)
    case GetSandboxJob(_) => JobOp(u, op, db)
    case ListRoutines => RoutineOp(u, op, db)
    case GetRoutine(_) => RoutineOp(u, op, db)
    case CreateRoutine(_, _) => RoutineOp(u, op, db)
    case UpdateRoutine(_, _) => RoutineOp(u, op, db)
    case DeleteRoutine(_) => RoutineOp(u, op, db)
    case EnsureConversation(_, _, _, _) => EnsureOp(u, op, db)
    case OwnsConversation(id) => (db, Owns(Find(db.conversations, u, id).Some?))
    case AddMessage(_, _, _, _) => ConversationOp(u, op, db)
    case ListMessages(_) => ConversationOp(u, op, db)
    case Touch(_, _) => ConversationOp(u, op, db)
    case SetMetadata(_, _, _) => ConversationOp(u, op, db)
    case GetSetting(_) => SettingOp(u, op, db)
    case SetSetting(_, _) => SettingOp(u, op, db)
    case DeleteSetting(_) => SettingOp(u, op, db)
    case ListSettings => SettingOp(u, op, db)
  }

  function ExecAll(u: User, ops: seq<Op>, db: Database): (Database, seq<Reply>) {
    if ops == [] then (db, [])
    else
      var (db', reply) := Exec(u, ops[0], db);
      var (db'', replies) := ExecAll(u, ops[1..], db');
      (db'', [reply] + replies)
  }

  // ---- Table lemmas ----

  lemma FindIsView<T>(table: map<Id, Owned<T>>, u: User, id: Id)
    ensures Find(table, u, id) == if id in RowsOf(table, u) then Some(RowsOf(table, u)[id]) else None
  {
  }

  lemma WriteOwned<T>(table: map<Id, Owned<T>>, u: User, id: Id, row: T, v: User)
    requires id !in table || table[id].owner == u
    ensures RowsOf(table[id := Owned(u, row)], v) == if v == u then RowsOf(table, u)[id := row] else RowsOf(table, v)
  {
  }

  lemma RemoveOwned<T>(table: map<Id, Owned<T>>, u: User, id: Id, v: User)
    requires id in table && table[id].owner == u
    ensures RowsOf(table - {id}, v) == if v == u then RowsOf(table, u) - {id} else RowsOf(table, v)
  {
  }

  // ---- Every call acts on the caller's view alone ----

  /**
   * A routine is created, or a conversation ensured, under an id that some other user has, and for a routine the caller's
   * own names allow it: all a call can learn of other rows.
   */
  predicate Clashes(u: User, op: Op, db: Database) {
    || (op.CreateRoutine? && op.id in db.routines && db.routines[op.id].owner != u && !NameTaken(RowsOf(db.routines, u), op.id, op.routine.name))
    || (op.EnsureConversation? && op.id in db.conversations && db.conversations[op.id].owner != u)
  }

  /** The same calls on the view alone. */
  function ExecView(op: Op, w: View, clash: bool): (View, Reply) {
    match op
    case GetJob(id) => (w, MaybeJob(Lookup(w.jobs, id)))
    case JobFailureReason(id) => (w, MaybeText(if id in w.jobs then w.jobs[id].failureReason else None))
    case UpdateJobStatus(id, status, reason) =>
      if id !in w.jobs then (w, NotFound) else (w.(jobs := w.jobs[id := Job(status, reason)]), Done)
    case ListJobs => (w, Jobs(w.jobs))
    case GetSandboxJob(id) => (w, MaybeJob(Lookup(w.sandboxJobs, id)))
    case ListRoutines => (w, Routines(w.routines))
    case GetRoutine(id) => (w, MaybeRoutine(Lookup(w.routines, id)))
    case CreateRoutine(id, routine) =>
      if clash || id in w.routines || NameTaken(w.routines, id, routine.name) then (w, Conflict)
      else (w.(routines := w.routines[id := routine]), Done)
    case UpdateRoutine(id, routine) =>
      if id !in w.routines then (w, NotFound)
      else if NameTaken(w.routines, id, routine.name) then (w, Conflict)
      else (w.(routines := w.routines[id := routine]), Done)
    case DeleteRoutine(id) =>
      if id !in w.routines then (w, NotFound) else (w.(routines := w.routines - {id}), Deleted(true))
    case EnsureConversation(id, channel, thread, now) =>
      if clash then (w, Ensured(false))
      else if id !in w.conversations then
        (w.(conversations := w.conversations[id := NewConversation(channel, thread, now)]), Ensured(true))
      else if w.conversations[id].channel != channel then (w, Ensured(false))
      else (w.(conversations := w.conversations[id := Ensure(w.conversations[id], channel, now)]), Ensured(true))
    case OwnsConversation(id) => (w, Owns(id in w.conversations))
    case AddMessage(id, role, text, now) =>
      if id !in w.conversations then (w, NotFound)
      else
        var c := w.conversations[id];
        (w.(conversations := w.conversations[id := c.(messages := c.messages + [(role, text)], touched := now)]), Done)
    case ListMessages(id) => (w, if id !in w.conversations then NotFound else Messages(w.conversations[id].messages))
    case Touch(id, now) =>
      if id !in w.conversations then (w, NotFound)
      else (w.(conversations := w.conversations[id := w.conversations[id].(touched := now)]), Done)
    case SetMetadata(id, key, value) =>
      if id !in w.conversations then (w, NotFound)
      else (w.(conversations := w.conversations[id := w.conversations[id].(metadata := w.conversations[id].metadata[key := value])]), Done)
    case GetSetting(key) => (w, MaybeValue(Lookup(w.settings, key)))
    case SetSetting(key, value) => (w.(settings := w.settings[key := value]), Done)
    case DeleteSetting(key) => (w.(settings := w.settings - {key}), Deleted(key in w.settings))
    case ListSettings => (w, Values(w.settings))
  }

  /** A call refines its view form for the caller and leaves every other user's view as it was. */
  predicate Isolated(u: User, op: Op, db: Database, v: User) {
    var (db', reply) := Exec(u, op, db);
    var (w, viewReply) := ExecView(op, ViewOf(db, u), Clashes(u, op, db));
    reply == viewReply && ViewOf(db', v) == if v == u then w else ViewOf(db, v)
  }

  lemma JobIsolated(u: User, op: Op, db: Database, v: User)
    requires op.GetJob? || op.JobFailureReason? || op.UpdateJobStatus? || op.ListJobs? || op.GetSandboxJob?
    ensures Isolated(u, op, db, v)
  {
    if op.GetSandboxJob? {
      FindIsView(db.sandboxJobs, u, op.id);
    } else if !op.ListJobs? {
      FindIsView(db.jobs, u, op.id);
      if op.UpdateJobStatus? && Find(db.jobs, u, op.id).Some? { WriteOwned(db.jobs, u, op.id, Job(op.status, op.reason), v); }
    }
  }

  lemma CreateIsolated(u: User, op: Op, db: Database, v: User)
    requires op.CreateRoutine?
    ensures Isolated(u, op, db, v)
  {
    FindIsView(db.routines, u, op.id);
    if op.id !in db.routines { WriteOwned(db.routines, u, op.id, op.routine, v); }
  }

  lemma RoutineIsolated(u: User, op: Op, db: Database, v: User)
    requires op.ListRoutines? || op.GetRoutine? || op.CreateRoutine? || op.UpdateRoutine? || op.DeleteRoutine?
    ensures Isolated(u, op, db, v)
  {
    if op.CreateRoutine? {
      CreateIsolated(u, op, db, v);
    } else if !op.ListRoutines? {
      FindIsView(db.routines, u, op.id);
      var mine := Find(db.routines, u, op.id).Some?;
      if op.UpdateRoutine? && mine { WriteOwned(db.routines, u, op.id, op.routine, v); }
      if op.DeleteRoutine? && mine { RemoveOwned(db.routines, u, op.id, v); }
    }
  }

  lemma EnsureIsolated(u: User, op: Op, db: Database, v: User)
    requires op.EnsureConversation? || op.OwnsConversation?
    ensures Isolated(u, op, db, v)
  {
    FindIsView(db.conversations, u, op.id);
    if op.EnsureConversation? {
      if op.id !in db.conversations {
        WriteOwned(db.conversations, u, op.id, NewConversation(op.channel, op.thread, op.now), v);
      } else if db.conversations[op.id].owner == u {
        WriteOwned(db.conversations, u, op.id, Ensure(db.conversations[op.id].row, op.channel, op.now), v);
      }
    }
  }

  lemma ConversationIsolated(u: User, op: Op, db: Database, v: User)
    requires op.AddMessage? || op.ListMessages? || op.Touch? || op.SetMetadata?
    ensures Isolated(u, op, db, v)
  {
    FindIsView(db.conversations, u, op.id);
    if Find(db.conversations, u, op.id).Some? && !op.ListMessages? {
      var after := Exec(u, op, db).0.conversations[op.id].row;
      WriteOwned(db.conversations, u, op.id, after, v);
    }
  }

  lemma SettingIsolated(u: User, op: Op, db: Database, v: User)
    requires op.GetSetting? || op.SetSetting? || op.DeleteSetting? || op.ListSettings?
    ensures Isolated(u, op, db, v)
  {
  }

  lemma CallIsolated(u: User, op: Op, db: Database, v: User)
    ensures Isolated(u, op, db, v)
  {
    if op.GetJob? || op.JobFailureReason? || op.UpdateJobStatus? || op.ListJobs? || op.GetSandboxJob? {
      JobIsolated(u, op, db, v);
    } else if op.ListRoutines? || op.GetRoutine? || op.CreateRoutine? || op.UpdateRoutine? || op.DeleteRoutine? {
      RoutineIsolated(u, op, db, v);
    } else if op.EnsureConversation? || op.OwnsConversation? {
      EnsureIsolated(u, op, db, v);
    } else if op.AddMessage? || op.ListMessages? || op.Touch? || op.SetMetadata? {
      ConversationIsolated(u, op, db, v);
    } else {
      SettingIsolated(u, op, db, v);
    }
  }

  /** Any sequence of calls by one user leaves every other user's rows unchanged. */
  lemma {:induction false} OthersUntouched(u: User, ops: seq<Op>, db: Database, v: User)
    requires v != u
    ensures ViewOf(ExecAll(u, ops, db).0, v) == ViewOf(db, v)
    decreases |ops|
  {
    if ops != [] {
      CallIsolated(u, ops[0], db, v);
      OthersUntouched(u, ops[1..], Exec(u, ops[0], db).0, v);
    }
  }

  /** Whether each call of the sequence clashes. */
  function ClashFlags(u: User, ops: seq<Op>, db: Database): seq<bool> {
    if ops == [] then [] else [Clashes(u, ops[0], db)] + ClashFlags(u, ops[1..], Exec(u, ops[0], db).0)
  }

  /** On databases that agree on the caller's rows, the replies of one call are equal exactly when both clash or neither. */
  lemma ReplyLeaksOnlyClashes(u: User, op: Op, a: Database, b: Database)
    requires ViewOf(a, u) == ViewOf(b, u)
    ensures Exec(u, op, a).1 == Exec(u, op, b).1 <==> Clashes(u, op, a) == Clashes(u, op, b)
  {
    CallIsolated(u, op, a, u);
    CallIsolated(u, op, b, u);
  }

  /**
   * The replies to any sequence of calls depend on the caller's own rows and on its clashes alone: databases that agree on
   * those rows give equal replies if and only if the same calls clash, and then the caller's rows stay equal.
   */
  lemma {:induction false} RepliesDependOnOwnRows(u: User, ops: seq<Op>, a: Database, b: Database)
    requires ViewOf(a, u) == ViewOf(b, u)
    ensures ExecAll(u, ops, a).1 == ExecAll(u, ops, b).1 <==> ClashFlags(u, ops, a) == ClashFlags(u, ops, b)
    ensures ClashFlags(u, ops, a) == ClashFlags(u, ops, b) ==> ViewOf(ExecAll(u, ops, a).0, u) == ViewOf(ExecAll(u, ops, b).0, u)
    decreases |ops|
  {
    if ops != [] {
      var a', b' := Exec(u, ops[0], a).0, Exec(u, ops[0], b).0;
      ReplyLeaksOnlyClashes(u, ops[0], a, b);
      CallIsolated(u, ops[0], a, u);
      CallIsolated(u, ops[0], b, u);
      if Clashes(u, ops[0], a) == Clashes(u, ops[0], b) {
        RepliesDependOnOwnRows(u, ops[1..], a', b');
        SameCons(Exec(u, ops[0], a).1, ExecAll(u, ops[1..], a').1, ExecAll(u, ops[1..], b').1);
        SameCons(Clashes(u, ops[0], a), ClashFlags(u, ops[1..], a'), ClashFlags(u, ops[1..], b'));
      } else {
        assert ExecAll(u, ops, a).1[0] != ExecAll(u, ops, b).1[0] && ClashFlags(u, ops, a)[0] != ClashFlags(u, ops, b)[0];
      }
    }
  }

  lemma SameCons<T>(x: T, s: seq<T>, t: seq<T>)
    ensures [x] + s == [x] + t <==> s == t
  {
    if [x] + s == [x] + t { assert ([x] + s)[1..] == s && ([x] + t)[1..] == t; }
  }

  /** The scope object: every call goes through the ownership check. */
  class TenantScope {
    const identity: User
    var db: Database

    constructor (identity: User, db: Database)
      ensures this.identity == identity && this.db == db
    {
      this.identity, this.db := identity, db;
    }

    method Call(op: Op) returns (reply: Reply)
      modifies this
      ensures (db, reply) == Exec(identity, op, old(db))
      ensures forall v: User :: v != identity ==> ViewOf(db, v) == old(ViewOf(db, v))
    {
      ghost var before := db;
      forall v: User | v != identity ensures ViewOf(Exec(identity, op, before).0, v) == ViewOf(before, v) { CallIsolated(identity, op, before, v); }
      var r := Exec(identity, op, db);
      db, reply := r.0, r.1;
    }
  }
}
