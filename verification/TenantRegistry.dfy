/** `TenantRateRegistry::get_or_create` under any interleaving, and the permits it hands out. */
module TenantRegistry {

  type User = string
  type RateId = nat
  type Task = nat

  /** A task: before the read lock, between the two locks, with its rate state, or holding an LLM permit. */
  datatype Phase = Asking(user: User) | Missed(user: User) | Ready(user: User, rate: RateId) | Permitted(user: User, rate: RateId)

  datatype State = State(
    rates: map<User, RateId>,
    created: RateId, // rate states are numbered as they are created
    available: map<RateId, nat>, // free LLM permits of each rate state
    tasks: map<Task, Phase>)

  datatype Step =
    | Start(t: Task, user: User)
    | ReadLock(t: Task) // fast path
    | WriteLock(t: Task) // slow path with double check
    | Acquire(t: Task)
    | Release(t: Task)

  predicate Enabled(s: State, step: Step) {
    match step
    case Start(t, _) => t !in s.tasks
    case ReadLock(t) => t in s.tasks && s.tasks[t].Asking?
    case WriteLock(t) => t in s.tasks && s.tasks[t].Missed?
    case Acquire(t) => t in s.tasks && s.tasks[t].Ready? && s.tasks[t].rate in s.available && s.available[s.tasks[t].rate] > 0
    case Release(t) => t in s.tasks && s.tasks[t].Permitted? && s.tasks[t].rate in s.available
  }

  function Next(max: nat, s: State, step: Step): State
    requires Enabled(s, step)
  {
    match step
    case Start(t, user) => s.(tasks := s.tasks[t := Asking(user)])
    case ReadLock(t) =>
      var u := s.tasks[t].user;
      s.(tasks := s.tasks[t := if u in s.rates then Ready(u, s.rates[u]) else Missed(u)])
    case WriteLock(t) =>
      var u := s.tasks[t].user;
      if u in s.rates then s.(tasks := s.tasks[t := Ready(u, s.rates[u])])
      else State(s.rates[u := s.created], s.created + 1, s.available[s.created := max], s.tasks[t := Ready(u, s.created)])
    case Acquire(t) =>
      var (u, r) := (s.tasks[t].user, s.tasks[t].rate);
      s.(available := s.available[r := s.available[r] - 1], tasks := s.tasks[t := Permitted(u, r)])
    case Release(t) =>
      var (u, r) := (s.tasks[t].user, s.tasks[t].rate);
      s.(available := s.available[r := s.available[r] + 1], tasks := s.tasks[t := Ready(u, r)])
  }

  predicate Run(max: nat, s: State, steps: seq<Step>)
    decreases |steps|
  {
    steps == [] || (Enabled(s, steps[0]) && Run(max, Next(max, s, steps[0]), steps[1..]))
  }

  function After(max: nat, s: State, steps: seq<Step>): State
    requires Run(max, s, steps)
    decreases |steps|
  {
    if steps == [] then s else After(max, Next(max, s, steps[0]), steps[1..])
  }

  const EMPTY := State(map[], 0, map[], map[])

  function Holders(s: State, r: RateId): set<Task> {
    set t | t in s.tasks && s.tasks[t].Permitted? && s.tasks[t].rate == r
  }

  function HoldersOf(s: State, u: User): set<Task> {
    set t | t in s.tasks && s.tasks[t].Permitted? && s.tasks[t].user == u
  }

  predicate HasRate(ph: Phase) {
    ph.Ready? || ph.Permitted?
  }

  /** One rate state per user, no rate state for two users, and no permit lost or made. */
  predicate Consistent(max: nat, s: State) {
    RatesKept(s) && PermitsKept(max, s)
  }

  /** A step changes the holders of a rate state by at most its own task. */
  lemma HoldersStep(max: nat, s: State, step: Step, r: RateId)
    requires Enabled(s, step)
    ensures Holders(Next(max, s, step), r) ==
            if step.Acquire? && s.tasks[step.t].rate == r then Holders(s, r) + {step.t}
            else if step.Release? && s.tasks[step.t].rate == r then Holders(s, r) - {step.t}
            else Holders(s, r)
  {
  }

  predicate PermitsKept(max: nat, s: State) {
    forall r | r in s.available :: r < s.created && s.available[r] + |Holders(s, r)| == max
  }

  lemma PermitsStep(max: nat, s: State, step: Step)
    requires PermitsKept(max, s) && Enabled(s, step) && Holders(s, s.created) == {}
    ensures PermitsKept(max, Next(max, s, step))
  {
    var s' := Next(max, s, step);
    forall r | r in s'.available ensures r < s'.created && s'.available[r] + |Holders(s', r)| == max {
      HoldersStep(max, s, step, r);
      assert step.Acquire? && s.tasks[step.t].rate == r ==> step.t !in Holders(s, r);
      assert step.Release? && s.tasks[step.t].rate == r ==> step.t in Holders(s, r);
    }
  }

  /** The part that does not count permits. */
  predicate RatesKept(s: State) {
    && (forall u | u in s.rates :: s.rates[u] < s.created && s.rates[u] in s.available)
    && (forall u, v | u in s.rates && v in s.rates && s.rates[u] == s.rates[v] :: u == v)
    && (forall t | t in s.tasks && HasRate(s.tasks[t]) :: s.tasks[t].user in s.rates && s.rates[s.tasks[t].user] == s.tasks[t].rate)
  }

  lemma RatesStep(max: nat, s: State, step: Step)
    requires RatesKept(s) && Enabled(s, step)
    ensures RatesKept(Next(max, s, step)) && Holders(s, s.created) == {}
  {
  }

  lemma StepKeeps(max: nat, s: State, step: Step)
    requires Consistent(max, s) && Enabled(s, step)
    ensures Consistent(max, Next(max, s, step))
  {
    RatesStep(max, s, step);
    PermitsStep(max, s, step);
  }

  lemma {:induction false} RunKeeps(max: nat, s: State, steps: seq<Step>)
    requires Consistent(max, s) && Run(max, s, steps)
    ensures Consistent(max, After(max, s, steps))
    decreases |steps|
  {
    if steps != [] {
      StepKeeps(max, s, steps[0]);
      RunKeeps(max, Next(max, s, steps[0]), steps[1..]);
    }
  }

  /** In every interleaving: all tasks of a user have the same rate state, and tasks of two users never do. */
  lemma OneRatePerUser(max: nat, steps: seq<Step>, a: Task, b: Task)
    requires Run(max, EMPTY, steps)
    requires var s := After(max, EMPTY, steps); a in s.tasks && b in s.tasks && HasRate(s.tasks[a]) && HasRate(s.tasks[b])
    ensures var s := After(max, EMPTY, steps); s.tasks[a].rate == s.tasks[b].rate <==> s.tasks[a].user == s.tasks[b].user
  {
    RunKeeps(max, EMPTY, steps);
  }

  /** A rate state, once handed out for a user, is the one every later call gets. */
  lemma {:induction false} RateIsStable(max: nat, s: State, steps: seq<Step>, u: User)
    requires Run(max, s, steps) && u in s.rates
    ensures u in After(max, s, steps).rates && After(max, s, steps).rates[u] == s.rates[u]
    decreases |steps|
  {
    if steps != [] { RateIsStable(max, Next(max, s, steps[0]), steps[1..], u); }
  }

  lemma SubsetSmaller(a: set<Task>, b: set<Task>)
    requires a <= b
    ensures |a| <= |b|
  {
    assert |b - a| == |b| - |a|;
  }

  /** In every interleaving, a user's outstanding LLM permits never exceed the configured maximum. */
  lemma PermitsBounded(max: nat, steps: seq<Step>, u: User)
    requires Run(max, EMPTY, steps)
    ensures |HoldersOf(After(max, EMPTY, steps), u)| <= max
  {
    RunKeeps(max, EMPTY, steps);
    var s := After(max, EMPTY, steps);
    if u in s.rates {
      assert HoldersOf(s, u) <= Holders(s, s.rates[u]);
      SubsetSmaller(HoldersOf(s, u), Holders(s, s.rates[u]));
    } else {
      assert HoldersOf(s, u) == {};
    }
  }

  /** The registry itself. */
  class TenantRateRegistry {
    const maxLlmConcurrent: nat
    var state: map<User, RateId>
    var created: RateId

    ghost predicate Valid()
      reads this
    {
      (forall u | u in state :: state[u] < created) && forall u, v | u in state && v in state && state[u] == state[v] :: u == v
    }

    constructor (max: nat)
      ensures Valid() && state == map[] && maxLlmConcurrent == max
    {
      maxLlmConcurrent, state, created := max, map[], 0;
    }

    /** With no other task in between: the user's rate state, made on the first call and the same ever after. */
    method GetOrCreate(user: User) returns (rate: RateId)
      requires Valid()
      modifies this
      ensures Valid() && user in state && rate == state[user]
      ensures user in old(state) ==> state == old(state)
      ensures user !in old(state) ==> state == old(state)[user := rate] && rate !in old(state).Values
    {
      if user in state { return state[user]; }
      rate := created;
      state, created := state[user := rate], created + 1;
    }
  }
}
