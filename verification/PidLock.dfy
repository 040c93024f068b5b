/** `PidLock`: open, lock, write, unlink and close steps of any number of processes, interleaved. */
module PidLock {
  import opened Options

  type Pid = nat
  type Inode = nat

  /** Where a process is in `acquire_at` and `drop`; a file keeps its identity after its name is gone. */
  datatype Phase =
    | Idle
    | Opened(file: Inode) // file opened or created, lock not yet tried
    | Locked(file: Inode)
    | Truncated(file: Inode)
    | Holding(file: Inode) // PID written, `PidLock` returned
    | Unlinked(file: Inode) // name removed in `drop`, file still open
    | Refused(file: Inode) // lock not granted, PID of the holder still to be read from the path

  datatype State = State(
    path: Option<Inode>, // the file the lock path names
    nextFile: Inode, // files are numbered as they are created
    content: map<Inode, Option<Pid>>, // None: empty
    procs: map<Pid, Phase>,
    told: map<Pid, Option<Pid>>) // what refused processes have read; None: nothing, reported as 0

  function At(s: State, p: Pid): Phase {
    if p in s.procs then s.procs[p] else Idle
  }

  /** What reading the lock path gives. */
  function AtPath(s: State): Option<Pid> {
    if s.path.Some? && s.path.value in s.content then s.content[s.path.value] else None
  }

  /** The process holds the exclusive lock on this file. */
  predicate HasLock(ph: Phase, f: Inode) {
    (ph.Locked? || ph.Truncated? || ph.Holding? || ph.Unlinked?) && ph.file == f
  }

  /** The process believes it is the one instance: it has the lock and has not begun to drop it. */
  predicate Active(ph: Phase) {
    ph.Locked? || ph.Truncated? || ph.Holding?
  }

  datatype Step =
    | Open(p: Pid)
    | TryLock(p: Pid) // granted when nobody has the lock, refused otherwise
    | ReadPid(p: Pid) // the refused process reads the file at the path, whichever that is by now
    | Truncate(p: Pid)
    | Write(p: Pid)
    | Unlink(p: Pid)
    | Close(p: Pid)
    | Crash(p: Pid) // or an I/O error: every file of the process is closed

  ghost predicate Free(s: State, f: Inode) {
    forall q: Pid :: !HasLock(At(s, q), f)
  }

  ghost predicate Enabled(s: State, step: Step) {
    var ph := At(s, step.p);
    match step
    case Open(_) => ph.Idle?
    case TryLock(_) => ph.Opened?
    case ReadPid(_) => ph.Refused?
    case Truncate(_) => ph.Locked?
    case Write(_) => ph.Truncated?
    case Unlink(_) => ph.Holding?
    case Close(_) => ph.Unlinked?
    case Crash(_) => true
  }

  ghost function Next(s: State, step: Step): State
    requires Enabled(s, step)
  {
    var p, ph := step.p, At(s, step.p);
    match step
    case Open(_) =>
      if s.path.Some? then s.(procs := s.procs[p := Opened(s.path.value)])
      else State(Some(s.nextFile), s.nextFile + 1, s.content[s.nextFile := None], s.procs[p := Opened(s.nextFile)], s.told)
    case TryLock(_) => s.(procs := s.procs[p := if Free(s, ph.file) then Locked(ph.file) else Refused(ph.file)])
    case ReadPid(_) => s.(procs := s.procs[p := Idle], told := s.told[p := AtPath(s)])
    case Truncate(_) => s.(content := s.content[ph.file := None], procs := s.procs[p := Truncated(ph.file)])
    case Write(_) => s.(content := s.content[ph.file := Some(p)], procs := s.procs[p := Holding(ph.file)])
    case Unlink(_) => s.(path := None, procs := s.procs[p := Unlinked(ph.file)])
    case Close(_) => s.(procs := s.procs[p := Idle])
    case Crash(_) => s.(procs := s.procs[p := Idle])
  }

  /** A run: every step is enabled where it is taken. */
  ghost predicate Run(s: State, steps: seq<Step>)
    decreases |steps|
  {
    steps == [] || (Enabled(s, steps[0]) && Run(Next(s, steps[0]), steps[1..]))
  }

  ghost function After(s: State, steps: seq<Step>): State
    requires Run(s, steps)
    decreases |steps|
  {
    if steps == [] then s else After(Next(s, steps[0]), steps[1..])
  }

  /** No process has the file open; a lock file left behind by a crash may be there. */
  predicate Initial(s: State) {
    s.procs == map[] && (s.path.Some? ==> s.path.value < s.nextFile)
  }

  // ---- In every run ----

  /** One lock holder per file, files are older than the next one, and a holder's file names it. */
  ghost predicate Safe(s: State) {
    && (forall p: Pid, q: Pid, f: Inode :: HasLock(At(s, p), f) && HasLock(At(s, q), f) ==> p == q)
    && (forall p: Pid :: !At(s, p).Idle? ==> At(s, p).file < s.nextFile)
    && (s.path.Some? ==> s.path.value < s.nextFile)
    && (forall p: Pid :: At(s, p).Holding? ==> Lookup(s.content, At(s, p).file) == Some(Some(p)))
  }

  lemma SafeStep(s: State, step: Step)
    requires Safe(s) && Enabled(s, step)
    ensures Safe(Next(s, step))
  {
    var s' := Next(s, step);
    forall q: Pid ensures q != step.p ==> At(s', q) == At(s, q) {}
    forall p: Pid | At(s', p).Holding? ensures Lookup(s'.content, At(s', p).file) == Some(Some(p)) {
      if p != step.p && (step.Truncate? || step.Write?) {
        assert HasLock(At(s, p), At(s, p).file) && HasLock(At(s, step.p), At(s, step.p).file);
      }
    }
  }

  /** Whatever the interleaving, each file identity has at most one lock holder. */
  lemma {:induction false} OneHolderPerFile(s: State, steps: seq<Step>)
    requires Safe(s) && Run(s, steps)
    ensures Safe(After(s, steps))
    decreases |steps|
  {
    if steps != [] {
      SafeStep(s, steps[0]);
      OneHolderPerFile(Next(s, steps[0]), steps[1..]);
    }
  }

  // ---- In runs where no acquirer is between open and try-lock when the holder unlinks ----

  ghost predicate NoneOpened(s: State) {
    forall p: Pid :: !At(s, p).Opened?
  }

  ghost predicate Orderly(s: State, steps: seq<Step>)
    requires Run(s, steps)
    decreases |steps|
  {
    steps == [] || ((steps[0].Unlink? ==> NoneOpened(s)) && Orderly(Next(s, steps[0]), steps[1..]))
  }

  /** Whoever opened or locked the file did so on the file the path names now. */
  ghost predicate Anchored(s: State) {
    && Safe(s)
    && (forall p: Pid :: Active(At(s, p)) || At(s, p).Opened? ==> s.path == Some(At(s, p).file))
    && (forall p: Pid :: At(s, p).Unlinked? ==> s.path != Some(At(s, p).file))
  }

  /** The file at the lock path holds this PID. */
  predicate PathNames(s: State, p: Pid) {
    AtPath(s) == Some(p)
  }

  /** At most one process believes it is the one instance. */
  ghost predicate Exclusive(s: State) {
    forall p: Pid, q: Pid :: Active(At(s, p)) && Active(At(s, q)) ==> p == q
  }

  lemma AnchoredIsExclusive(s: State)
    requires Anchored(s)
    ensures Exclusive(s)
    ensures forall p: Pid :: At(s, p).Holding? ==> PathNames(s, p)
  {
    forall p: Pid, q: Pid | Active(At(s, p)) && Active(At(s, q)) ensures p == q {
      assert HasLock(At(s, p), s.path.value) && HasLock(At(s, q), s.path.value);
    }
  }

  lemma AnchoredStep(s: State, step: Step)
    requires Anchored(s) && Enabled(s, step) && (step.Unlink? ==> NoneOpened(s))
    ensures Anchored(Next(s, step))
  {
    SafeStep(s, step);
    AnchoredIsExclusive(s);
    var s' := Next(s, step);
    forall q: Pid ensures q != step.p ==> At(s', q) == At(s, q) {}
    assert Active(At(s, step.p)) || !step.Unlink?;
  }

  /** In every such run there is one instance at a time, and the file at the path names it once it has written. */
  lemma {:induction false} OneInstance(s: State, steps: seq<Step>)
    requires Anchored(s) && Run(s, steps) && Orderly(s, steps)
    ensures Anchored(After(s, steps)) && Exclusive(After(s, steps))
    ensures forall p: Pid :: At(After(s, steps), p).Holding? ==> PathNames(After(s, steps), p)
    decreases |steps|
  {
    if steps != [] {
      AnchoredStep(s, steps[0]);
      OneInstance(Next(s, steps[0]), steps[1..]);
    } else {
      AnchoredIsExclusive(s);
    }
  }

  lemma InitialIsAnchored(s: State)
    requires Initial(s)
    ensures Anchored(s)
  {
  }

  /** A refused acquirer that reads the path while an instance has written its PID reads that PID. */
  lemma RefusedReadsHolder(s: State, p: Pid, q: Pid)
    requires Anchored(s) && At(s, q).Refused? && At(s, p).Holding?
    ensures Next(s, ReadPid(q)).told[q] == Some(p)
  {
    AnchoredIsExclusive(s);
  }

  /** But the holder may unlink between refusal and reading: then the acquirer is refused and reads nothing. */
  lemma RefusedReadsNothing(s: State, p: Pid, q: Pid)
    requires Anchored(s) && At(s, p).Holding? && At(s, q).Opened?
    ensures var steps := [TryLock(q), Unlink(p), ReadPid(q)];
            Run(s, steps) && Lookup(After(s, steps).told, q) == Some(None) && Exclusive(After(s, steps))
  {
    AnchoredIsExclusive(s);
    var f := At(s, q).file;
    assert HasLock(At(s, p), f);
    var s1 := Next(s, TryLock(q));
    assert !Free(s, f) && At(s1, q) == Refused(f) && At(s1, p) == At(s, p);
    var s2 := Next(s1, Unlink(p));
    var s3 := Next(s2, ReadPid(q));
    RunCons(s2, ReadPid(q), []);
    RunCons(s1, Unlink(p), [ReadPid(q)]);
    RunCons(s, TryLock(q), [Unlink(p), ReadPid(q)]);
    assert [TryLock(q)] + [Unlink(p), ReadPid(q)] == [TryLock(q), Unlink(p), ReadPid(q)] && [Unlink(p)] + [ReadPid(q)] == [Unlink(p), ReadPid(q)];
    forall x: Pid ensures Active(At(s3, x)) ==> Active(At(s, x)) {}
  }

  // ---- The excluded race ----

  /** The holder unlinks while `q` has the file open: `q` locks the orphan, `r` a new file, and both go on. */
  function Race(p: Pid, q: Pid, r: Pid): seq<Step> {
    [Unlink(p), Close(p), TryLock(q), Open(r), TryLock(r)]
  }

  lemma RaceBreaksExclusion(s: State, p: Pid, q: Pid, r: Pid)
    requires Anchored(s) && At(s, p).Holding? && At(s, q).Opened? && At(s, r).Idle?
    ensures Run(s, Race(p, q, r)) && !Exclusive(After(s, Race(p, q, r)))
  {
    AnchoredIsExclusive(s);
    var f := At(s, p).file;
    var s1 := Next(s, Unlink(p));
    var s2 := Next(s1, Close(p));
    assert Free(s2, f) by {
      forall x: Pid ensures !HasLock(At(s2, x), f) { assert x != p ==> At(s2, x) == At(s, x); }
    }
    var s3 := Next(s2, TryLock(q));
    var s4 := Next(s3, Open(r));
    assert Free(s4, s.nextFile) by {
      forall x: Pid ensures !HasLock(At(s4, x), s.nextFile) { assert x != p && x != q && x != r ==> At(s4, x) == At(s, x); }
    }
    var s5 := Next(s4, TryLock(r));
    assert At(s5, q) == Locked(f) && At(s5, r) == Locked(s.nextFile);
    RunRace(s, p, q, r, s1, s2, s3, s4, s5);
  }

  lemma RunRace(s: State, p: Pid, q: Pid, r: Pid, s1: State, s2: State, s3: State, s4: State, s5: State)
    requires Enabled(s, Unlink(p)) && s1 == Next(s, Unlink(p))
    requires Enabled(s1, Close(p)) && s2 == Next(s1, Close(p))
    requires Enabled(s2, TryLock(q)) && s3 == Next(s2, TryLock(q))
    requires Enabled(s3, Open(r)) && s4 == Next(s3, Open(r))
    requires Enabled(s4, TryLock(r)) && s5 == Next(s4, TryLock(r))
    ensures Run(s, Race(p, q, r)) && After(s, Race(p, q, r)) == s5
  {
    assert [Open(r)] + [TryLock(r)] == [Open(r), TryLock(r)];
    assert [TryLock(q)] + [Open(r), TryLock(r)] == [TryLock(q), Open(r), TryLock(r)];
    assert [Close(p)] + [TryLock(q), Open(r), TryLock(r)] == [Close(p), TryLock(q), Open(r), TryLock(r)];
    assert [Unlink(p)] + [Close(p), TryLock(q), Open(r), TryLock(r)] == Race(p, q, r);
    assert [TryLock(r)] + [] == [TryLock(r)];
    RunCons(s4, TryLock(r), []);
    RunCons(s3, Open(r), [TryLock(r)]);
    RunCons(s2, TryLock(q), [Open(r), TryLock(r)]);
    RunCons(s1, Close(p), [TryLock(q), Open(r), TryLock(r)]);
    RunCons(s, Unlink(p), [Close(p), TryLock(q), Open(r), TryLock(r)]);
  }

  lemma RunCons(s: State, step: Step, rest: seq<Step>)
    requires Enabled(s, step) && Run(Next(s, step), rest)
    ensures Run(s, [step] + rest) && After(s, [step] + rest) == After(Next(s, step), rest)
  {
    assert ([step] + rest)[1..] == rest;
  }

  /**
   * The condition is exact: after the holder unlinks, some continuation whose own unlinks keep to it has two instances
   * at once if and only if an acquirer was between open and try-lock at that moment.
   */
  lemma UnlinkIsSafeExactlyWhenNoneOpened(s: State, p: Pid)
    requires Anchored(s) && At(s, p).Holding?
    ensures NoneOpened(s) <==>
            forall steps: seq<Step> :: Run(Next(s, Unlink(p)), steps) && Orderly(Next(s, Unlink(p)), steps) ==> Exclusive(After(Next(s, Unlink(p)), steps))
  {
    var s1 := Next(s, Unlink(p));
    if NoneOpened(s) {
      AnchoredStep(s, Unlink(p));
      forall steps: seq<Step> | Run(s1, steps) && Orderly(s1, steps) ensures Exclusive(After(s1, steps)) { OneInstance(s1, steps); }
    } else {
      var rest := RaceAfterUnlink(s, p);
      NoUnlinkIsOrderly(s1, rest);
      assert Run(s1, rest) && Orderly(s1, rest) && !Exclusive(After(s1, rest));
    }
  }

  lemma RaceAfterUnlink(s: State, p: Pid) returns (rest: seq<Step>)
    requires Anchored(s) && At(s, p).Holding? && !NoneOpened(s)
    ensures var s1 := Next(s, Unlink(p));
            Run(s1, rest) && (forall x <- rest :: !x.Unlink?) && !Exclusive(After(s1, rest))
  {
    var q: Pid :| At(s, q).Opened?;
    var r := SomeIdle(s);
    RaceBreaksExclusion(s, p, q, r);
    rest := [Close(p), TryLock(q), Open(r), TryLock(r)];
    assert Race(p, q, r)[1..] == rest;
  }

  lemma {:induction false} NoUnlinkIsOrderly(s: State, steps: seq<Step>)
    requires Run(s, steps) && forall x <- steps :: !x.Unlink?
    ensures Orderly(s, steps)
    decreases |steps|
  {
    if steps != [] {
      assert steps[0] in steps;
      NoUnlinkIsOrderly(Next(s, steps[0]), steps[1..]);
    }
  }

  /** There is always another process. */
  lemma SomeIdle(s: State) returns (r: Pid)
    ensures At(s, r).Idle?
  {
    r := Bound(s.procs.Keys);
    assert r !in s.procs.Keys;
  }

  lemma {:induction false} Bound(ps: set<Pid>) returns (r: Pid)
    ensures forall p <- ps :: p < r
    decreases |ps|
  {
    if ps == {} {
      r := 0;
    } else {
      var p :| p in ps;
      var r' := Bound(ps - {p});
      r := if r' <= p then p + 1 else r';
      forall x | x in ps ensures x < r { assert x == p || x in ps - {p}; }
    }
  }

  /** The race can be reached from an empty directory. */
  lemma RaceFromTheStart(s: State) returns (steps: seq<Step>)
    requires Initial(s)
    ensures Run(s, steps) && !Exclusive(After(s, steps))
  {
    InitialIsAnchored(s);
    var s1 := Next(s, Open(1));
    assert Free(s1, At(s1, 1).file) by { forall x: Pid ensures !HasLock(At(s1, x), At(s1, 1).file) {} }
    var s2 := Next(s1, TryLock(1));
    var s3 := Next(s2, Truncate(1));
    var s4 := Next(s3, Write(1));
    var s5 := Next(s4, Open(2));
    AnchoredStep(s, Open(1));
    AnchoredStep(s1, TryLock(1));
    AnchoredStep(s2, Truncate(1));
    AnchoredStep(s3, Write(1));
    AnchoredStep(s4, Open(2));
    RaceBreaksExclusion(s5, 1, 2, 3);
    RunCons(s4, Open(2), Race(1, 2, 3));
    RunCons(s3, Write(1), [Open(2)] + Race(1, 2, 3));
    RunCons(s2, Truncate(1), [Write(1)] + ([Open(2)] + Race(1, 2, 3)));
    RunCons(s1, TryLock(1), [Truncate(1)] + ([Write(1)] + ([Open(2)] + Race(1, 2, 3))));
    RunCons(s, Open(1), [TryLock(1)] + ([Truncate(1)] + ([Write(1)] + ([Open(2)] + Race(1, 2, 3)))));
    steps := [Open(1)] + ([TryLock(1)] + ([Truncate(1)] + ([Write(1)] + ([Open(2)] + Race(1, 2, 3)))));
  }
}
