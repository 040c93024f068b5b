/** `run_agentic_loop` with an adversary for a delegate: what the counters mean over a whole run. */
module AgenticLoop {
  import opened Options
  import opened Sequences
  import CanonicalJson

  datatype ToolCall = ToolCall(name: string, arguments: CanonicalJson.Value)
  datatype Outcome = Response(text: string) | Stopped | MaxIterations | Failure(text: string) | NeedApproval(text: string) | AuthPending(text: string)
  datatype Signal = Continue | Stop | Inject(text: string)
  datatype Reply = Text(text: string) | Tools(calls: seq<ToolCall>, content: Option<string>, truncated: bool)
  datatype Execution = ExecError | ExecReturn(outcome: Outcome) | ExecDone(allFailed: bool)

  /** Everything the delegate may do in one iteration. */
  datatype Turn = Turn(
    signal: Signal,
    before: Option<Outcome>,
    reply: Option<Reply>, // None: the LLM call fails
    toolsAvailable: bool,
    textAction: Option<Outcome>,
    execution: Execution)

  datatype Config = Config(maxIterations: nat, enableNudge: bool, maxNudges: nat)

  /** How a run ends: the iterations ran out, or the delegate ended it. */
  datatype End = Exhausted | Returned(outcome: Outcome) | Errored

  const DUPLICATE_WARNING_THRESHOLD: nat := 3
  const DUPLICATE_FORCE_TEXT_THRESHOLD: nat := 5
  const TRUNCATION_THRESHOLD: nat := 3

  /** Messages the loop itself pushes; its three fixed user messages have constructors of their own. */
  datatype Message = User(text: string) | Assistant(text: string) | Nudge | TruncationNotice | DuplicateWarning

  /** Phrase matching and hashing, which this model does not open up. */
  datatype Oracle = Oracle(signalsIntent: string -> bool, hash: seq<(string, CanonicalJson.Value)> -> nat)

  /** The fingerprint hashes names and canonical arguments, call by call. */
  function Hashed(calls: seq<ToolCall>): (r: seq<(string, CanonicalJson.Value)>)
    ensures |r| == |calls| && forall i | 0 <= i < |r| :: r[i] == (calls[i].name, CanonicalJson.Canonical(calls[i].arguments))
  {
    seq(|calls|, i requires 0 <= i < |calls| => (calls[i].name, CanonicalJson.Canonical(calls[i].arguments)))
  }

  function Fingerprint(o: Oracle, calls: seq<ToolCall>): nat {
    o.hash(Hashed(calls))
  }

  // ---- What happened, seen from outside ----

  /** One finished iteration. */
  datatype Event = Nudged | HandledText(intent: bool) | Truncated | Executed(fingerprint: nat, allFailed: bool)

  /** The tracker is blind to nudged texts and truncated batches. */
  predicate Visible(e: Event) {
    e.HandledText? || e.Executed?
  }

  function Seen(h: seq<Event>): seq<Event> {
    if h == [] then [] else
      var rest, e := Seen(h[..|h| - 1]), h[|h| - 1];
      if Visible(e) then rest + [e] else rest
  }

  /** Events `from..to` are failed batches with one fingerprint. */
  predicate Streak(s: seq<Event>, from: int, to: int) {
    && 0 <= from <= to <= |s|
    && (forall i | from <= i < to :: s[i].Executed? && s[i].allFailed)
    && (forall i, j | from <= i < to && from <= j < to :: s[i] == s[j])
  }

  /** `n` is the length of the longest streak that ends with the last event seen. */
  predicate TrailingStreak(s: seq<Event>, n: nat) {
    n <= |s| && Streak(s, |s| - n, |s|) && !Streak(s, |s| - n - 1, |s|)
  }

  /** The positions at which a streak reaches length `n` or more. */
  function Reaches(s: seq<Event>, n: nat): set<nat> {
    set i: nat | i < |s| && ReachesAt(s, n, i)
  }

  predicate ReachesAt(s: seq<Event>, n: nat, i: nat) {
    Streak(s, i + 1 - n, i + 1)
  }

  /** Truncations since the last executed batch. */
  function TruncationsPending(h: seq<Event>): nat {
    if h == [] || h[|h| - 1].Executed? then 0
    else TruncationsPending(h[..|h| - 1]) + if h[|h| - 1].Truncated? then 1 else 0
  }

  /** Three truncations with no executed batch in between. */
  predicate ThreeTruncations(h: seq<Event>) {
    exists i, j, k | 0 <= i < j < k < |h| :: h[i].Truncated? && h[j].Truncated? && h[k].Truncated? && NoBatch(h, i, k)
  }

  function Nudges(h: seq<Event>): nat {
    if h == [] then 0 else Nudges(h[..|h| - 1]) + if h[|h| - 1].Nudged? then 1 else 0
  }

  /** Handled texts without tool intent, and executed batches. */
  function NudgeResets(h: seq<Event>): nat {
    if h == [] then 0
    else NudgeResets(h[..|h| - 1]) + if h[|h| - 1].Executed? || h[|h| - 1] == HandledText(false) then 1 else 0
  }

  function Count(ms: seq<Message>, m: Message): nat {
    if ms == [] then 0 else Count(ms[..|ms| - 1], m) + if ms[|ms| - 1] == m then 1 else 0
  }

  // ---- The loop ----

  datatype Tracker = Tracker(last: Option<nat>, count: nat)

  function Record(t: Tracker, fp: nat, allFailed: bool): Tracker {
    if allFailed && t.last == Some(fp) then t.(count := t.count + 1)
    else if allFailed then Tracker(Some(fp), 1)
    else Tracker(Some(fp), 0)
  }

  datatype State = State(
    nudges: nat,
    truncations: nat,
    tracker: Tracker,
    forceText: bool,
    messages: seq<Message>,
    afterIteration: seq<nat>,
    history: seq<Event>)

  function Initial(forceText: bool): State {
    State(0, 0, Tracker(None, 0), forceText, [], [], [])
  }

  datatype Step = Go(state: State) | Done(end: End, state: State)

  /** The end of an iteration: the event is over and `after_iteration` is called. */
  function Finish(s: State, iteration: nat, e: Event): Step {
    Go(s.(afterIteration := s.afterIteration + [iteration], history := s.history + [e]))
  }

  function TextStep(cfg: Config, o: Oracle, s: State, t: Turn, iteration: nat, text: string): Step {
    var intent := o.signalsIntent(text);
    if cfg.enableNudge && t.toolsAvailable && !s.forceText && s.nudges < cfg.maxNudges && intent then
      Finish(s.(nudges := s.nudges + 1, messages := s.messages + [Assistant(text), Nudge]), iteration, Nudged)
    else
      var s' := s.(nudges := if intent then s.nudges else 0, tracker := Tracker(None, 0));
      match t.textAction
      case Some(outcome) => Done(Returned(outcome), s')
      case None => Finish(s', iteration, HandledText(intent))
  }

  function ToolStep(o: Oracle, s: State, t: Turn, iteration: nat, reply: Reply): Step
    requires reply.Tools?
  {
    if reply.truncated then
      var said := if reply.content.Some? then [Assistant(reply.content.value)] else [];
      Finish(AfterTruncation(s, said), iteration, Truncated)
    else
      match t.execution
      case ExecError => Done(Errored, s.(nudges := 0, truncations := 0))
      case ExecReturn(outcome) => Done(Returned(outcome), s.(nudges := 0, truncations := 0))
      case ExecDone(allFailed) =>
        var fp := Fingerprint(o, reply.calls);
        Finish(AfterBatch(s, fp, allFailed), iteration, Executed(fp, allFailed))
  }

  /** A truncated batch: said, answered with a notice, not executed. */
  function AfterTruncation(s: State, said: seq<Message>): State {
    s.(truncations := s.truncations + 1,
       messages := s.messages + said + [TruncationNotice],
       forceText := s.forceText || s.truncations + 1 >= TRUNCATION_THRESHOLD)
  }

  /** An executed batch, recorded in the tracker. */
  function AfterBatch(s: State, fp: nat, allFailed: bool): State {
    var tracker := Record(s.tracker, fp, allFailed);
    s.(nudges := 0, truncations := 0, tracker := tracker,
       forceText := s.forceText || tracker.count >= DUPLICATE_FORCE_TEXT_THRESHOLD,
       messages := s.messages + if tracker.count >= DUPLICATE_WARNING_THRESHOLD then [DuplicateWarning] else [])
  }

  function Injected(s: State, t: Turn): State {
    if t.signal.Inject? then s.(messages := s.messages + [User(t.signal.text)]) else s
  }

  function Iterate(cfg: Config, o: Oracle, s: State, t: Turn, iteration: nat): Step {
    if t.signal.Stop? then Done(Returned(Stopped), s)
    else
      var s' := Injected(s, t);
      if t.before.Some? then Done(Returned(t.before.value), s')
      else match t.reply
        case None => Done(Errored, s')
        case Some(Text(text)) => TextStep(cfg, o, s', t, iteration, text)
        case Some(reply) => ToolStep(o, s', t, iteration, reply)
  }

  /** The state of the run after `n` iterations, or how it ended before. */
  function After(cfg: Config, o: Oracle, turns: seq<Turn>, forced: bool, n: nat): Step
    requires n <= |turns|
  {
    if n == 0 then Go(Initial(forced))
    else match After(cfg, o, turns, forced, n - 1)
      case Done(end, s) => Done(end, s)
      case Go(s) => Iterate(cfg, o, s, turns[n - 1], n)
  }

  /** The whole run. */
  function Run(cfg: Config, o: Oracle, turns: seq<Turn>, forced: bool): (End, State)
    requires |turns| == cfg.maxIterations
  {
    match After(cfg, o, turns, forced, cfg.maxIterations)
    case Done(end, s) => (end, s)
    case Go(s) => (Exhausted, s)
  }

  // ---- What the counters mean ----

  function OneTo(k: nat): seq<nat> {
    if k == 0 then [] else OneTo(k - 1) + [k]
  }

  /** The tracker's count is the trailing streak, and its fingerprint is the streak's. */
  predicate TracksStreak(t: Tracker, seen: seq<Event>) {
    && TrailingStreak(seen, t.count)
    && (t.count > 0 ==> t.last == Some(seen[|seen| - 1].fingerprint))
  }

  /** The tracker and the warnings. */
  predicate StreaksExplained(t: Tracker, messages: seq<Message>, h: seq<Event>) {
    TracksStreak(t, Seen(h)) && Count(messages, DuplicateWarning) == |Reaches(Seen(h), DUPLICATE_WARNING_THRESHOLD)|
  }

  /** Why text is forced, if it is. */
  predicate Forced(forced: bool, h: seq<Event>) {
    forced || Reaches(Seen(h), DUPLICATE_FORCE_TEXT_THRESHOLD) != {} || ThreeTruncations(h)
  }

  /** The truncation counter and the flag. */
  predicate ForceExplained(forced: bool, forceText: bool, truncations: nat, h: seq<Event>) {
    truncations == TruncationsPending(h) && (forceText <==> Forced(forced, h))
  }

  predicate NudgesExplained(max: nat, nudges: nat, h: seq<Event>) {
    nudges <= max && Nudges(h) <= max * NudgeResets(h) + nudges
  }

  /** Every counter, flag and message of the loop, in terms of the finished iterations alone. */
  predicate Explains(cfg: Config, forced: bool, s: State) {
    && s.afterIteration == OneTo(|s.history|)
    && StreaksExplained(s.tracker, s.messages, s.history)
    && ForceExplained(forced, s.forceText, s.truncations, s.history)
    && NudgesExplained(cfg.maxNudges, s.nudges, s.history)
  }

  lemma StreakExtends(s: seq<Event>, e: Event, from: int)
    ensures from <= |s| ==>
      (Streak(s + [e], from, |s| + 1) <==>
        Streak(s, from, |s|) && e.Executed? && e.allFailed && (from < |s| ==> s[|s| - 1] == e))
  {
    if Streak(s + [e], from, |s| + 1) && from <= |s| {
      forall i | from <= i < |s| ensures s[i] == (s + [e])[i] {}
      assert (s + [e])[|s|] == e;
    }
  }

  lemma ReachesExtends(s: seq<Event>, e: Event, n: nat)
    requires n > 0
    ensures |s| !in Reaches(s, n)
    ensures Reaches(s + [e], n) == Reaches(s, n) + if ReachesAt(s + [e], n, |s|) then {|s|} else {}
  {
    forall i: nat | i < |s| ensures ReachesAt(s + [e], n, i) <==> ReachesAt(s, n, i) {
      assert forall x | 0 <= x < |s| :: (s + [e])[x] == s[x];
    }
  }

  /** A count of at least `n` is a streak of length `n` ending here. */
  lemma CountReaches(s: seq<Event>, count: nat, n: nat)
    requires TrailingStreak(s, count) && 0 < n && s != []
    ensures count >= n <==> ReachesAt(s, n, |s| - 1)
  {
    if n > count && ReachesAt(s, n, |s| - 1) {
      assert Streak(s, |s| - count - 1, |s|);
    }
  }

  /** One recorded batch keeps the tracker in step with the streak. */
  lemma RecordTracks(t: Tracker, seen: seq<Event>, fp: nat, allFailed: bool)
    requires TracksStreak(t, seen)
    ensures TracksStreak(Record(t, fp, allFailed), seen + [Executed(fp, allFailed)])
  {
    var e := Executed(fp, allFailed);
    var t' := Record(t, fp, allFailed);
    StreakExtends(seen, e, |seen| + 1 - t'.count);
    StreakExtends(seen, e, |seen| - t'.count);
    assert t'.count == 0 ==> Streak(seen + [e], |seen| + 1, |seen| + 1);
  }

  predicate NoBatch(h: seq<Event>, from: nat, to: nat) {
    from <= to <= |h| && forall x | from <= x < to :: !h[x].Executed?
  }

  lemma {:induction false} OnePending(h: seq<Event>, i: nat)
    requires i < |h| && h[i].Truncated? && NoBatch(h, i, |h|)
    ensures TruncationsPending(h) >= 1
  {
    if i < |h| - 1 { OnePending(h[..|h| - 1], i); }
  }

  lemma {:induction false} TwoPending(h: seq<Event>, i: nat, j: nat)
    requires i < j < |h| && h[i].Truncated? && h[j].Truncated? && NoBatch(h, i, |h|)
    ensures TruncationsPending(h) >= 2
  {
    if j == |h| - 1 { OnePending(h[..|h| - 1], i); } else { TwoPending(h[..|h| - 1], i, j); }
  }

  lemma {:induction false} FindOnePending(h: seq<Event>) returns (i: nat)
    requires TruncationsPending(h) >= 1
    ensures i < |h| && h[i].Truncated? && NoBatch(h, i, |h|)
  {
    if h[|h| - 1].Truncated? { i := |h| - 1; } else { i := FindOnePending(h[..|h| - 1]); }
  }

  lemma {:induction false} FindTwoPending(h: seq<Event>) returns (i: nat, j: nat)
    requires TruncationsPending(h) >= 2
    ensures i < j < |h| && h[i].Truncated? && h[j].Truncated? && NoBatch(h, i, |h|)
  {
    if h[|h| - 1].Truncated? {
      i := FindOnePending(h[..|h| - 1]);
      j := |h| - 1;
    } else {
      i, j := FindTwoPending(h[..|h| - 1]);
    }
  }

  /** A third truncation is one that finds two pending. */
  lemma ThreeTruncationsExtends(h: seq<Event>, e: Event)
    ensures ThreeTruncations(h + [e]) <==> ThreeTruncations(h) || (e.Truncated? && TruncationsPending(h) >= 2)
  {
    var g := h + [e];
    assert forall x | 0 <= x < |h| :: g[x] == h[x];
    if ThreeTruncations(g) {
      var i, j, k :| 0 <= i < j < k < |g| && g[i].Truncated? && g[j].Truncated? && g[k].Truncated? && NoBatch(g, i, k);
      if k == |h| {
        assert NoBatch(h, i, |h|);
        TwoPending(h, i, j);
      } else {
        assert h[i].Truncated? && h[j].Truncated? && h[k].Truncated? && NoBatch(h, i, k);
      }
    }
    if ThreeTruncations(h) {
      var i, j, k :| 0 <= i < j < k < |h| && h[i].Truncated? && h[j].Truncated? && h[k].Truncated? && NoBatch(h, i, k);
      assert g[i].Truncated? && g[j].Truncated? && g[k].Truncated? && NoBatch(g, i, k);
    }
    if e.Truncated? && TruncationsPending(h) >= 2 {
      var i, j := FindTwoPending(h);
      assert g[i].Truncated? && g[j].Truncated? && g[|h|].Truncated? && NoBatch(g, i, |h|);
    }
  }

  /** Appending one event, for every function of the history. */
  lemma HistoryExtends(h: seq<Event>, e: Event)
    ensures var g := h + [e];
            && Seen(g) == (if Visible(e) then Seen(h) + [e] else Seen(h))
            && TruncationsPending(g) == (if e.Executed? then 0 else TruncationsPending(h) + if e.Truncated? then 1 else 0)
            && Nudges(g) == Nudges(h) + (if e.Nudged? then 1 else 0)
            && NudgeResets(g) == NudgeResets(h) + (if e.Executed? || e == HandledText(false) then 1 else 0)
            && OneTo(|g|) == OneTo(|h|) + [|g|]
  {
    assert (h + [e])[..|h|] == h;
  }

  lemma {:induction false} CountExtends(ms: seq<Message>, ns: seq<Message>, m: Message)
    ensures Count(ms + ns, m) == Count(ms, m) + Count(ns, m)
  {
    if ns == [] {
      assert ms + ns == ms;
    } else {
      CountExtends(ms, ns[..|ns| - 1], m);
      assert (ms + ns)[..|ms + ns| - 1] == ms + ns[..|ns| - 1];
    }
  }

  // ---- Every iteration keeps the explanation ----

  /** Nudged texts and truncated batches leave the tracker and the warnings alone. */
  lemma StreaksBlind(t: Tracker, messages: seq<Message>, more: seq<Message>, h: seq<Event>, e: Event)
    requires StreaksExplained(t, messages, h) && !Visible(e) && DuplicateWarning !in more
    ensures StreaksExplained(t, messages + more, h + [e])
  {
    HistoryExtends(h, e);
    CountExtends(messages, more, DuplicateWarning);
    CountNone(more, DuplicateWarning);
  }

  lemma NudgeKeeps(cfg: Config, forced: bool, s: State, text: string)
    requires Explains(cfg, forced, s) && s.nudges < cfg.maxNudges
    ensures Explains(cfg, forced, Finish(s.(nudges := s.nudges + 1, messages := s.messages + [Assistant(text), Nudge]), |s.history| + 1, Nudged).state)
  {
    StreaksBlind(s.tracker, s.messages, [Assistant(text), Nudge], s.history, Nudged);
    ForceTextOnly(forced, s.forceText, s.truncations, s.history, Nudged);
    HistoryExtends(s.history, Nudged);
  }

  /** Texts leave the truncation counter and the flag alone. */
  lemma ForceTextOnly(forced: bool, forceText: bool, truncations: nat, h: seq<Event>, e: Event)
    requires ForceExplained(forced, forceText, truncations, h) && (e.Nudged? || e.HandledText?)
    ensures ForceExplained(forced, forceText, truncations, h + [e])
  {
    HistoryExtends(h, e);
    ThreeTruncationsExtends(h, e);
    if e.HandledText? { TextBreaksStreak(Seen(h), e.intent); }
  }

  /** A handled text ends the streak and adds no warning. */
  lemma TextBreaksStreak(seen: seq<Event>, intent: bool)
    ensures TracksStreak(Tracker(None, 0), seen + [HandledText(intent)])
    ensures Reaches(seen + [HandledText(intent)], DUPLICATE_WARNING_THRESHOLD) == Reaches(seen, DUPLICATE_WARNING_THRESHOLD)
    ensures Reaches(seen + [HandledText(intent)], DUPLICATE_FORCE_TEXT_THRESHOLD) == Reaches(seen, DUPLICATE_FORCE_TEXT_THRESHOLD)
  {
    var e := HandledText(intent);
    StreakExtends(seen, e, |seen|);
    ReachesExtends(seen, e, DUPLICATE_WARNING_THRESHOLD);
    ReachesExtends(seen, e, DUPLICATE_FORCE_TEXT_THRESHOLD);
    assert (seen + [e])[|seen|] == e;
  }

  /** A batch that brings the count to `n` or more is one more position where a streak reaches `n`. */
  lemma BatchReaches(t: Tracker, seen: seq<Event>, fp: nat, allFailed: bool, n: nat)
    requires TracksStreak(t, seen) && n > 0
    ensures var c, r := Record(t, fp, allFailed).count, Reaches(seen + [Executed(fp, allFailed)], n);
            && |r| == |Reaches(seen, n)| + (if c >= n then 1 else 0)
            && (r != {} <==> Reaches(seen, n) != {} || c >= n)
  {
    var e := Executed(fp, allFailed);
    RecordTracks(t, seen, fp, allFailed);
    ReachesExtends(seen, e, n);
    CountReaches(seen + [e], Record(t, fp, allFailed).count, n);
  }

  lemma StreaksText(t: Tracker, messages: seq<Message>, h: seq<Event>, intent: bool)
    requires StreaksExplained(t, messages, h)
    ensures StreaksExplained(Tracker(None, 0), messages, h + [HandledText(intent)])
  {
    HistoryExtends(h, HandledText(intent));
    TextBreaksStreak(Seen(h), intent);
  }

  lemma OneMore(h: seq<Event>, e: Event)
    ensures |h + [e]| == |h| + 1 && OneTo(|h + [e]|) == OneTo(|h|) + [|h| + 1]
  {
  }

  lemma NudgesKept(max: nat, nudges: nat, h: seq<Event>, e: Event)
    requires NudgesExplained(max, nudges, h) && (e.Truncated? || e == HandledText(true))
    ensures NudgesExplained(max, nudges, h + [e])
  {
    HistoryExtends(h, e);
  }

  lemma NudgesReset(max: nat, nudges: nat, h: seq<Event>, e: Event)
    requires NudgesExplained(max, nudges, h) && (e.Executed? || e == HandledText(false))
    ensures NudgesExplained(max, 0, h + [e])
  {
    HistoryExtends(h, e);
    ResetRoom(max, NudgeResets(h), nudges);
  }

  lemma TextKeeps(cfg: Config, forced: bool, s: State, intent: bool)
    requires Explains(cfg, forced, s)
    ensures Explains(cfg, forced,
              Finish(s.(nudges := if intent then s.nudges else 0, tracker := Tracker(None, 0)), |s.history| + 1, HandledText(intent)).state)
  {
    var e := HandledText(intent);
    StreaksText(s.tracker, s.messages, s.history, intent);
    ForceTextOnly(forced, s.forceText, s.truncations, s.history, e);
    if intent { NudgesKept(cfg.maxNudges, s.nudges, s.history, e); } else { NudgesReset(cfg.maxNudges, s.nudges, s.history, e); }
    OneMore(s.history, e);
  }

  lemma ResetRoom(max: nat, resets: nat, nudges: nat)
    requires nudges <= max
    ensures max * resets + nudges <= max * (resets + 1)
  {
  }

  lemma ForceTruncation(forced: bool, forceText: bool, truncations: nat, h: seq<Event>)
    requires ForceExplained(forced, forceText, truncations, h)
    ensures ForceExplained(forced, forceText || truncations + 1 >= TRUNCATION_THRESHOLD, truncations + 1, h + [Truncated])
  {
    HistoryExtends(h, Truncated);
    ThreeTruncationsExtends(h, Truncated);
  }

  lemma TruncationKeeps(cfg: Config, forced: bool, s: State, said: seq<Message>)
    requires Explains(cfg, forced, s) && DuplicateWarning !in said
    ensures Explains(cfg, forced, Finish(AfterTruncation(s, said), |s.history| + 1, Truncated).state)
  {
    StreaksBlind(s.tracker, s.messages, said + [TruncationNotice], s.history, Truncated);
    Regroup(s.messages, said, [TruncationNotice]);
    ForceTruncation(forced, s.forceText, s.truncations, s.history);
    NudgesKept(cfg.maxNudges, s.nudges, s.history, Truncated);
    OneMore(s.history, Truncated);
  }

  lemma {:induction false} CountNone(ms: seq<Message>, m: Message)
    requires m !in ms
    ensures Count(ms, m) == 0
  {
    if ms != [] { CountNone(ms[..|ms| - 1], m); }
  }

  lemma StreaksBatch(t: Tracker, messages: seq<Message>, h: seq<Event>, fp: nat, allFailed: bool)
    requires StreaksExplained(t, messages, h)
    ensures var t' := Record(t, fp, allFailed);
            StreaksExplained(t', messages + (if t'.count >= DUPLICATE_WARNING_THRESHOLD then [DuplicateWarning] else []), h + [Executed(fp, allFailed)])
  {
    var count := Record(t, fp, allFailed).count;
    HistoryExtends(h, Executed(fp, allFailed));
    RecordTracks(t, Seen(h), fp, allFailed);
    BatchReaches(t, Seen(h), fp, allFailed, DUPLICATE_WARNING_THRESHOLD);
    CountExtends(messages, if count >= DUPLICATE_WARNING_THRESHOLD then [DuplicateWarning] else [], DuplicateWarning);
    CountOne(DuplicateWarning);
  }

  lemma ForceBatch(forced: bool, forceText: bool, truncations: nat, t: Tracker, h: seq<Event>, fp: nat, allFailed: bool)
    requires ForceExplained(forced, forceText, truncations, h) && TracksStreak(t, Seen(h))
    ensures ForceExplained(forced, forceText || Record(t, fp, allFailed).count >= DUPLICATE_FORCE_TEXT_THRESHOLD, 0, h + [Executed(fp, allFailed)])
  {
    HistoryExtends(h, Executed(fp, allFailed));
    ThreeTruncationsExtends(h, Executed(fp, allFailed));
    BatchReaches(t, Seen(h), fp, allFailed, DUPLICATE_FORCE_TEXT_THRESHOLD);
  }

  lemma BatchKeeps(cfg: Config, forced: bool, s: State, fp: nat, allFailed: bool)
    requires Explains(cfg, forced, s)
    ensures Explains(cfg, forced, Finish(AfterBatch(s, fp, allFailed), |s.history| + 1, Executed(fp, allFailed)).state)
  {
    var e := Executed(fp, allFailed);
    StreaksBatch(s.tracker, s.messages, s.history, fp, allFailed);
    ForceBatch(forced, s.forceText, s.truncations, s.tracker, s.history, fp, allFailed);
    NudgesReset(cfg.maxNudges, s.nudges, s.history, e);
    OneMore(s.history, e);
  }

  lemma CountOne(m: Message)
    ensures Count([m], m) == 1 && Count([], m) == 0
  {
    assert [m][..0] == [];
  }

  lemma InjectKeeps(cfg: Config, forced: bool, s: State, t: Turn)
    requires Explains(cfg, forced, s)
    ensures Explains(cfg, forced, Injected(s, t)) && Injected(s, t).history == s.history
  {
    if t.signal.Inject? { CountExtends(s.messages, [User(t.signal.text)], DuplicateWarning); }
  }

  lemma TextStepKeeps(cfg: Config, o: Oracle, forced: bool, s: State, t: Turn, text: string)
    requires Explains(cfg, forced, s)
    ensures var r := TextStep(cfg, o, s, t, |s.history| + 1, text);
            r.Go? ==> Explains(cfg, forced, r.state) && |r.state.history| == |s.history| + 1
  {
    if s.nudges < cfg.maxNudges { NudgeKeeps(cfg, forced, s, text); }
    TextKeeps(cfg, forced, s, o.signalsIntent(text));
  }

  lemma ToolStepKeeps(cfg: Config, o: Oracle, forced: bool, s: State, t: Turn, reply: Reply)
    requires Explains(cfg, forced, s) && reply.Tools?
    ensures var r := ToolStep(o, s, t, |s.history| + 1, reply);
            r.Go? ==> Explains(cfg, forced, r.state) && |r.state.history| == |s.history| + 1
  {
    if reply.truncated {
      var said := if reply.content.Some? then [Assistant(reply.content.value)] else [];
      assert DuplicateWarning !in said;
      TruncationKeeps(cfg, forced, s, said);
    } else if t.execution.ExecDone? {
      BatchKeeps(cfg, forced, s, Fingerprint(o, reply.calls), t.execution.allFailed);
    }
  }

  /** The same from the state in which the reply finds the loop. */
  lemma ReplyKeeps(cfg: Config, o: Oracle, forced: bool, s: State, t: Turn, reply: Reply)
    requires Explains(cfg, forced, s)
    ensures var r := if reply.Text? then TextStep(cfg, o, s, t, |s.history| + 1, reply.text) else ToolStep(o, s, t, |s.history| + 1, reply);
            r.Go? ==> Explains(cfg, forced, r.state) && |r.state.history| == |s.history| + 1
  {
    if reply.Text? { TextStepKeeps(cfg, o, forced, s, t, reply.text); } else { ToolStepKeeps(cfg, o, forced, s, t, reply); }
  }

  /** Whatever the delegate does in an iteration, the explanation still holds after it. */
  lemma IterationKeeps(cfg: Config, o: Oracle, forced: bool, s: State, t: Turn)
    requires Explains(cfg, forced, s)
    ensures var r := Iterate(cfg, o, s, t, |s.history| + 1);
            r.Go? ==> Explains(cfg, forced, r.state) && |r.state.history| == |s.history| + 1
  {
    var s' := Injected(s, t);
    InjectKeeps(cfg, forced, s, t);
    if t.reply.Some? { ReplyKeeps(cfg, o, forced, s', t, t.reply.value); }
  }

  /** What an iteration that ends the run leaves alone. */
  lemma EndingIteration(cfg: Config, o: Oracle, s: State, t: Turn)
    ensures var r := Iterate(cfg, o, s, t, |s.history| + 1);
            r.Done? ==> r.end != Exhausted && r.state.history == s.history &&
                        r.state.forceText == s.forceText && r.state.afterIteration == s.afterIteration
  {
  }

  // ---- Whole runs ----

  lemma InitialExplained(cfg: Config, forced: bool)
    ensures Explains(cfg, forced, Initial(forced))
  {
    assert Streak([], 0, 0) && !Streak([], -1, 0);
  }

  lemma ExplainedResult(cfg: Config, forced: bool, s: State)
    requires Explains(cfg, forced, s)
    ensures ExplainsResult(cfg, forced, s)
  {
    ResetRoom(cfg.maxNudges, NudgeResets(s.history), s.nudges);
  }

  lemma EndingExplained(cfg: Config, o: Oracle, forced: bool, s: State, t: Turn)
    requires Explains(cfg, forced, s)
    ensures var r := Iterate(cfg, o, s, t, |s.history| + 1);
            r.Done? ==> r.end != Exhausted && r.state.history == s.history && ExplainsResult(cfg, forced, r.state)
  {
    ExplainedResult(cfg, forced, s);
    EndingIteration(cfg, o, s, t);
    EndingMessages(cfg, o, s, t);
  }

  /** Over any run: after every iteration that does not end it, the history explains the whole state. */
  lemma {:induction false} RunExplained(cfg: Config, o: Oracle, turns: seq<Turn>, forced: bool, n: nat)
    requires n <= |turns|
    ensures var r := After(cfg, o, turns, forced, n);
            && (r.Go? ==> |r.state.history| == n && Explains(cfg, forced, r.state))
            && (r.Done? ==> r.end != Exhausted && |r.state.history| < n && ExplainsResult(cfg, forced, r.state))
  {
    if n == 0 {
      InitialExplained(cfg, forced);
    } else {
      RunExplained(cfg, o, turns, forced, n - 1);
      var r := After(cfg, o, turns, forced, n - 1);
      if r.Go? {
        IterationKeeps(cfg, o, forced, r.state, turns[n - 1]);
        EndingExplained(cfg, o, forced, r.state, turns[n - 1]);
      }
    }
  }

  /** What stays true of the state in which a run ends, finished iterations counted. */
  predicate ExplainsResult(cfg: Config, forced: bool, s: State) {
    && s.afterIteration == OneTo(|s.history|)
    && Count(s.messages, DuplicateWarning) == |Reaches(Seen(s.history), DUPLICATE_WARNING_THRESHOLD)|
    && (s.forceText <==> Forced(forced, s.history))
    && Nudges(s.history) <= cfg.maxNudges * (NudgeResets(s.history) + 1)
  }

  lemma EndingMessages(cfg: Config, o: Oracle, s: State, t: Turn)
    ensures var r := Iterate(cfg, o, s, t, |s.history| + 1);
            r.Done? ==> Count(r.state.messages, DuplicateWarning) == Count(s.messages, DuplicateWarning)
  {
    if t.signal.Inject? { CountExtends(s.messages, [User(t.signal.text)], DuplicateWarning); }
  }

  /**
   * The result of every run: warnings, forced text and nudges follow from the finished iterations;
   * `after_iteration` was called with exactly 1..k; the loop runs out exactly when k is the limit.
   */
  lemma RunResult(cfg: Config, o: Oracle, turns: seq<Turn>, forced: bool)
    requires |turns| == cfg.maxIterations
    ensures var (end, s) := Run(cfg, o, turns, forced);
            && ExplainsResult(cfg, forced, s)
            && |s.history| <= cfg.maxIterations
            && (end == Exhausted <==> |s.history| == cfg.maxIterations)
            && Count(s.messages, DuplicateWarning) == Excess(Streaks(Seen(s.history)))
  {
    WarningsSum(Seen(Run(cfg, o, turns, forced).1.history));
    RunExplained(cfg, o, turns, forced, cfg.maxIterations);
    var r := After(cfg, o, turns, forced, cfg.maxIterations);
    if r.Go? { ExplainedResult(cfg, forced, r.state); }
  }

  // ---- Maximal streaks ----

  predicate Failed(e: Event) {
    e.Executed? && e.allFailed
  }

  /** The same event again lengthens the last streak. */
  function Longer(ls: seq<nat>): seq<nat>
    requires ls != []
  {
    ls[..|ls| - 1] + [ls[|ls| - 1] + 1]
  }

  /** The lengths of the maximal streaks, in order. */
  function Streaks(s: seq<Event>): (ls: seq<nat>)
    ensures s != [] && Failed(s[|s| - 1]) ==> ls != []
  {
    if s == [] then [] else
      var init, e := s[..|s| - 1], s[|s| - 1];
      var ls := Streaks(init);
      if !Failed(e) then ls
      else if init != [] && init[|init| - 1] == e then Longer(ls)
      else ls + [1]
  }

  /** The sum of max(0, L - 2) over the lengths L. */
  function Excess(ls: seq<nat>): nat {
    if ls == [] then 0 else Excess(ls[..|ls| - 1]) + if ls[|ls| - 1] > 2 then ls[|ls| - 1] - 2 else 0
  }

  lemma {:induction false} ExcessSnoc(ls: seq<nat>, n: nat)
    ensures Excess(ls + [n]) == Excess(ls) + if n > 2 then n - 2 else 0
  {
    assert (ls + [n])[..|ls|] == ls;
  }

  lemma {:induction false} ExcessLonger(ls: seq<nat>)
    requires ls != []
    ensures Excess(Longer(ls)) == Excess(ls) + if ls[|ls| - 1] + 1 >= 3 then 1 else 0
  {
    ExcessSnoc(ls[..|ls| - 1], ls[|ls| - 1] + 1);
  }

  lemma {:induction false} StreaksSnoc(init: seq<Event>, e: Event)
    ensures Streaks(init + [e]) ==
            if !Failed(e) then Streaks(init)
            else if init != [] && init[|init| - 1] == e then Longer(Streaks(init)) else Streaks(init) + [1]
  {
    var s := init + [e];
    assert s[..|s| - 1] == init && s[|s| - 1] == e;
  }

  lemma TrailGrows(init: seq<Event>, e: Event, n: nat)
    requires Failed(e) && init != [] && init[|init| - 1] == e && TrailingStreak(init, n)
    ensures TrailingStreak(init + [e], n + 1)
  {
    StreakExtends(init, e, |init| - n);
    StreakExtends(init, e, |init| - n - 1);
  }

  lemma TrailStarts(init: seq<Event>, e: Event)
    requires Failed(e) && (init != [] ==> init[|init| - 1] != e)
    ensures TrailingStreak(init + [e], 1)
  {
    StreakExtends(init, e, |init|);
    StreakExtends(init, e, |init| - 1);
  }

  /** The last of the lengths is that of the trailing streak. */
  lemma {:induction false} StreaksTrail(init: seq<Event>, e: Event)
    requires Failed(e)
    ensures var ls := Streaks(init + [e]); ls != [] && TrailingStreak(init + [e], ls[|ls| - 1])
    decreases |init|
  {
    StreaksSnoc(init, e);
    if init != [] && init[|init| - 1] == e {
      var before := init[..|init| - 1];
      assert init == before + [e];
      StreaksTrail(before, e);
      var ls := Streaks(init);
      TrailGrows(init, e, ls[|ls| - 1]);
    } else {
      TrailStarts(init, e);
    }
  }

  lemma ReachesSnoc(init: seq<Event>, e: Event, count: nat)
    requires if Failed(e) then TrailingStreak(init + [e], count) else count == 0
    ensures |Reaches(init + [e], DUPLICATE_WARNING_THRESHOLD)| ==
            |Reaches(init, DUPLICATE_WARNING_THRESHOLD)| + if count >= DUPLICATE_WARNING_THRESHOLD then 1 else 0
  {
    ReachesExtends(init, e, DUPLICATE_WARNING_THRESHOLD);
    if Failed(e) {
      CountReaches(init + [e], count, DUPLICATE_WARNING_THRESHOLD);
    } else {
      assert (init + [e])[|init|] == e;
    }
  }

  lemma {:induction false} WarningsStep(init: seq<Event>, e: Event)
    requires |Reaches(init, DUPLICATE_WARNING_THRESHOLD)| == Excess(Streaks(init))
    ensures |Reaches(init + [e], DUPLICATE_WARNING_THRESHOLD)| == Excess(Streaks(init + [e]))
  {
    StreaksSnoc(init, e);
    if Failed(e) {
      StreaksTrail(init, e);
      var ls := Streaks(init + [e]);
      ReachesSnoc(init, e, ls[|ls| - 1]);
      if init != [] && init[|init| - 1] == e { ExcessLonger(Streaks(init)); } else { ExcessSnoc(Streaks(init), 1); }
    } else {
      ReachesSnoc(init, e, 0);
    }
  }

  /** The warnings of all maximal streaks together: the sum of max(0, L - 2). */
  lemma {:induction false} WarningsSum(s: seq<Event>)
    ensures |Reaches(s, DUPLICATE_WARNING_THRESHOLD)| == Excess(Streaks(s))
  {
    if s != [] {
      var init, e := s[..|s| - 1], s[|s| - 1];
      WarningsSum(init);
      WarningsStep(init, e);
      assert s == init + [e];
    }
  }

  // ---- Member order in the arguments ----

  /** The same calls but for the order of members in their arguments. */
  predicate SameCalls(a: seq<ToolCall>, b: seq<ToolCall>) {
    |a| == |b| && forall i | 0 <= i < |a| ::
      && a[i].name == b[i].name
      && CanonicalJson.WellFormed(a[i].arguments) && CanonicalJson.WellFormed(b[i].arguments)
      && CanonicalJson.SameUpToOrder(a[i].arguments, b[i].arguments)
  }

  predicate SameTurn(a: Turn, b: Turn) {
    if a.reply.Some? && a.reply.value.Tools? then
      && b.reply.Some? && b.reply.value.Tools? && SameCalls(a.reply.value.calls, b.reply.value.calls)
      && b == a.(reply := Some(a.reply.value.(calls := b.reply.value.calls)))
    else a == b
  }

  lemma SameFingerprint(o: Oracle, a: seq<ToolCall>, b: seq<ToolCall>)
    requires SameCalls(a, b)
    ensures Fingerprint(o, a) == Fingerprint(o, b)
  {
    forall i | 0 <= i < |a| ensures Hashed(a)[i] == Hashed(b)[i] {
      CanonicalJson.CanonicalSound(a[i].arguments, b[i].arguments);
    }
    assert Hashed(a) == Hashed(b);
  }

  lemma SameIteration(cfg: Config, o: Oracle, s: State, t: Turn, u: Turn, iteration: nat)
    requires SameTurn(t, u)
    ensures Iterate(cfg, o, s, t, iteration) == Iterate(cfg, o, s, u, iteration)
  {
    if t.reply.Some? && t.reply.value.Tools? { SameFingerprint(o, t.reply.value.calls, u.reply.value.calls); }
  }

  /** Permuting members in the arguments of every batch changes no state of the run and not its result. */
  lemma {:induction false} ArgumentOrderIrrelevant(cfg: Config, o: Oracle, a: seq<Turn>, b: seq<Turn>, forced: bool, n: nat)
    requires |a| == |b| && n <= |a| && forall i | 0 <= i < |a| :: SameTurn(a[i], b[i])
    ensures After(cfg, o, a, forced, n) == After(cfg, o, b, forced, n)
  {
    if n > 0 {
      ArgumentOrderIrrelevant(cfg, o, a, b, forced, n - 1);
      var before := After(cfg, o, a, forced, n - 1);
      assert SameTurn(a[n - 1], b[n - 1]);
      if before.Go? { SameIteration(cfg, o, before.state, a[n - 1], b[n - 1], n); }
    }
  }

  // ---- The program ----

  /** `DuplicateToolCallTracker`. */
  class DuplicateToolCallTracker {
    var lastFingerprint: Option<nat>
    var consecutiveCount: nat

    ghost function Value(): Tracker
      reads this
    {
      Tracker(lastFingerprint, consecutiveCount)
    }

    constructor ()
      ensures Value() == Tracker(None, 0)
    {
      lastFingerprint, consecutiveCount := None, 0;
    }

    method RecordWithFingerprint(fp: nat, allFailed: bool) returns (count: nat)
      modifies this
      ensures Value() == Record(old(Value()), fp, allFailed) && count == consecutiveCount
    {
      if allFailed && lastFingerprint == Some(fp) {
        consecutiveCount := consecutiveCount + 1;
      } else if allFailed {
        lastFingerprint, consecutiveCount := Some(fp), 1;
      } else {
        Reset();
        lastFingerprint := Some(fp);
      }
      count := consecutiveCount;
    }

    method Reset()
      modifies this
      ensures Value() == Tracker(None, 0)
    {
      lastFingerprint, consecutiveCount := None, 0;
    }
  }

  /** The batch the loop hands to `execute_tool_calls` in one turn, if any. */
  function SentBy(t: Turn): seq<seq<ToolCall>> {
    if !t.signal.Stop? && t.before.None? && t.reply.Some? && t.reply.value.Tools? && !t.reply.value.truncated
    then [t.reply.value.calls] else []
  }

  function Sent(turns: seq<Turn>, n: nat): seq<seq<ToolCall>>
    requires n <= |turns|
  {
    if n == 0 then [] else Sent(turns, n - 1) + SentBy(turns[n - 1])
  }

  lemma {:induction false} EndedStaysEnded(cfg: Config, o: Oracle, turns: seq<Turn>, forced: bool, n: nat, m: nat)
    requires n <= m <= |turns| && After(cfg, o, turns, forced, n).Done?
    ensures After(cfg, o, turns, forced, m) == After(cfg, o, turns, forced, n)
  {
    if n < m { EndedStaysEnded(cfg, o, turns, forced, n, m - 1); }
  }

  /** The locals of `run_agentic_loop` and the parts of the reasoning context it writes. */
  class Loop {
    var nudges: nat
    var truncations: nat
    const tracker: DuplicateToolCallTracker
    var forceText: bool
    var messages: seq<Message>
    var after: seq<nat>
    var executed: seq<seq<ToolCall>>
    ghost var history: seq<Event>

    ghost function Value(): State
      reads this, tracker
    {
      State(nudges, truncations, tracker.Value(), forceText, messages, after, history)
    }

    constructor (forced: bool)
      ensures Value() == Initial(forced) && executed == [] && fresh(tracker)
    {
      nudges, truncations, forceText, messages, after, executed, history := 0, 0, forced, [], [], [], [];
      tracker := new DuplicateToolCallTracker();
    }

    /** Ends an iteration: `after_iteration` is called. */
    method FinishIteration(iteration: nat, ghost e: Event)
      modifies this`after, this`history
      ensures Go(Value()) == Finish(old(Value()), iteration, e)
    {
      after, history := after + [iteration], history + [e];
    }

    method HandleText(cfg: Config, o: Oracle, t: Turn, iteration: nat, text: string) returns (end: Option<End>)
      modifies this, tracker
      ensures executed == old(executed)
      ensures TextStep(cfg, o, old(Value()), t, iteration, text) == if end.Some? then Done(end.value, Value()) else Go(Value())
    {
      if cfg.enableNudge && t.toolsAvailable && !forceText && nudges < cfg.maxNudges && o.signalsIntent(text) {
        nudges := nudges + 1;
        messages := messages + [Assistant(text), Nudge];
        FinishIteration(iteration, Nudged);
        return None;
      }
      if !o.signalsIntent(text) { nudges := 0; }
      tracker.Reset();
      if t.textAction.Some? { return Some(Returned(t.textAction.value)); }
      FinishIteration(iteration, HandledText(o.signalsIntent(text)));
      return None;
    }

    method HandleTools(o: Oracle, t: Turn, iteration: nat, reply: Reply) returns (end: Option<End>)
      requires reply.Tools?
      modifies this, tracker
      ensures executed == old(executed) + if reply.truncated then [] else [reply.calls]
      ensures ToolStep(o, old(Value()), t, iteration, reply) == if end.Some? then Done(end.value, Value()) else Go(Value())
    {
      if reply.truncated {
        truncations := truncations + 1;
        if reply.content.Some? { messages := messages + [Assistant(reply.content.value)]; }
        messages := messages + [TruncationNotice];
        if truncations >= TRUNCATION_THRESHOLD { forceText := true; }
        FinishIteration(iteration, Truncated);
        return None;
      }
      nudges, truncations := 0, 0;
      var fp := Fingerprint(o, reply.calls);
      executed := executed + [reply.calls];
      match t.execution {
        case ExecError => return Some(Errored);
        case ExecReturn(outcome) => return Some(Returned(outcome));
        case ExecDone(allFailed) =>
          var dupCount := tracker.RecordWithFingerprint(fp, allFailed);
          if dupCount >= DUPLICATE_FORCE_TEXT_THRESHOLD {
            forceText := true;
            messages := messages + [DuplicateWarning];
          } else if dupCount >= DUPLICATE_WARNING_THRESHOLD {
            messages := messages + [DuplicateWarning];
          }
          FinishIteration(iteration, Executed(fp, allFailed));
          return None;
      }
    }

    /** One pass of the `for` loop. */
    method RunIteration(cfg: Config, o: Oracle, t: Turn, iteration: nat) returns (end: Option<End>)
      modifies this, tracker
      ensures executed == old(executed) + SentBy(t)
      ensures Iterate(cfg, o, old(Value()), t, iteration) == if end.Some? then Done(end.value, Value()) else Go(Value())
    {
      match t.signal {
        case Continue =>
        case Stop => return Some(Returned(Stopped));
        case Inject(text) => messages := messages + [User(text)];
      }
      if t.before.Some? { return Some(Returned(t.before.value)); }
      if t.reply.None? { return Some(Errored); }
      match t.reply.value {
        case Text(text) => end := HandleText(cfg, o, t, iteration, text);
        case Tools(_, _, _) => end := HandleTools(o, t, iteration, t.reply.value);
      }
    }
  }

  /**
   * `run_agentic_loop`. No truncated batch is ever executed: what is executed is exactly the
   * untruncated batches of the turns that were begun, in order.
   */
  method RunAgenticLoop(cfg: Config, o: Oracle, turns: seq<Turn>, forced: bool) returns (end: End, run: Loop, begun: nat)
    requires |turns| == cfg.maxIterations
    ensures fresh(run) && fresh(run.tracker)
    ensures (end, run.Value()) == Run(cfg, o, turns, forced)
    ensures begun <= cfg.maxIterations && run.executed == Sent(turns, begun)
  {
    run := new Loop(forced);
    begun := 0;
    for i := 0 to cfg.maxIterations
      invariant fresh(run) && fresh(run.tracker)
      invariant begun == i && run.executed == Sent(turns, i)
      invariant After(cfg, o, turns, forced, i) == Go(run.Value())
    {
      begun := i + 1;
      var ended := run.RunIteration(cfg, o, turns[i], i + 1);
      if ended.Some? {
        EndedStaysEnded(cfg, o, turns, forced, i + 1, cfg.maxIterations);
        return ended.value, run, begun;
      }
    }
    end := Exhausted;
  }
}
