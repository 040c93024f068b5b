/** The agentic loop seen from its turns: which event each turn finishes with, how a run ends, and what has been said. */
module AgenticTurns {
  import opened Options
  import opened Sequences
  import opened AgenticLoop

  // ---- What a turn leads to, given the events before it ----

  /** Nudges since the last executed batch or handled text without tool intent. */
  function NudgesPending(h: seq<Event>): nat {
    if h == [] || h[|h| - 1].Executed? || h[|h| - 1] == HandledText(false) then 0
    else NudgesPending(h[..|h| - 1]) + if h[|h| - 1].Nudged? then 1 else 0
  }

  /** The LLM announces a tool without calling one, and may still be nudged. */
  predicate ToBeNudged(cfg: Config, o: Oracle, forced: bool, h: seq<Event>, t: Turn) {
    && t.reply.Some? && t.reply.value.Text? && o.signalsIntent(t.reply.value.text)
    && cfg.enableNudge && t.toolsAvailable && !Forced(forced, h) && NudgesPending(h) < cfg.maxNudges
  }

  /** After the events `h`, the turn finishes with `e`. */
  predicate Finishes(cfg: Config, o: Oracle, forced: bool, h: seq<Event>, t: Turn, e: Event) {
    && !t.signal.Stop? && t.before.None? && t.reply.Some?
    && match e
       case Nudged => ToBeNudged(cfg, o, forced, h, t)
       case HandledText(intent) =>
         && t.reply.value.Text? && !ToBeNudged(cfg, o, forced, h, t)
         && t.textAction.None? && intent == o.signalsIntent(t.reply.value.text)
       case Truncated => t.reply.value.Tools? && t.reply.value.truncated
       case Executed(fp, allFailed) =>
         && t.reply.value.Tools? && !t.reply.value.truncated
         && t.execution == ExecDone(allFailed) && fp == Fingerprint(o, t.reply.value.calls)
  }

  /** After the events `h`, the turn ends the run: the first of its parts that says so decides how. */
  predicate Ends(cfg: Config, o: Oracle, forced: bool, h: seq<Event>, t: Turn, end: End) {
    if t.signal.Stop? then end == Returned(Stopped)
    else if t.before.Some? then end == Returned(t.before.value)
    else match t.reply
      case None => end == Errored
      case Some(Text(_)) => !ToBeNudged(cfg, o, forced, h, t) && t.textAction.Some? && end == Returned(t.textAction.value)
      case Some(Tools(_, _, truncated)) =>
        && !truncated && !t.execution.ExecDone?
        && end == if t.execution.ExecReturn? then Returned(t.execution.outcome) else Errored
  }

  /** A turn cannot both finish and end, and it finishes in one way: so these say what happens. */
  lemma OneWay(cfg: Config, o: Oracle, forced: bool, h: seq<Event>, t: Turn, a: Event, b: Event, end: End)
    requires Finishes(cfg, o, forced, h, t, a)
    ensures Finishes(cfg, o, forced, h, t, b) ==> a == b
    ensures !Ends(cfg, o, forced, h, t, end)
  {
  }

  // ---- What is said ----

  function Injection(t: Turn): seq<Message> {
    if t.signal.Inject? then [User(t.signal.text)] else []
  }

  /** What the loop itself says to the last of the events `h`, which the turn finished with. */
  function Reaction(t: Turn, h: seq<Event>): seq<Message>
    requires h != []
  {
    match h[|h| - 1]
    case Nudged => if t.reply.Some? && t.reply.value.Text? then [Assistant(t.reply.value.text), Nudge] else []
    case HandledText(_) => []
    case Truncated =>
      (if t.reply.Some? && t.reply.value.Tools? && t.reply.value.content.Some? then [Assistant(t.reply.value.content.value)] else []) +
      [TruncationNotice]
    case Executed(_, _) => if ReachesAt(Seen(h), DUPLICATE_WARNING_THRESHOLD, |Seen(h)| - 1) then [DuplicateWarning] else []
  }

  /** Everything said in the finished turns, in order. */
  function Transcript(turns: seq<Turn>, h: seq<Event>): seq<Message>
    requires |h| <= |turns|
  {
    if h == [] then []
    else Transcript(turns, h[..|h| - 1]) + Injection(turns[|h| - 1]) + Reaction(turns[|h| - 1], h)
  }

  function Truncations(h: seq<Event>): nat {
    if h == [] then 0 else Truncations(h[..|h| - 1]) + if h[|h| - 1].Truncated? then 1 else 0
  }

  // ---- One iteration ----

  /** The counters and messages of a run whose finished turns are `turns[..k]`. */
  ghost predicate InTurn(cfg: Config, o: Oracle, forced: bool, turns: seq<Turn>, s: State, k: nat) {
    && k == |s.history| <= |turns| && Explains(cfg, forced, s)
    && s.nudges == NudgesPending(s.history) && s.messages == Transcript(turns, s.history)
    && AllFinish(cfg, o, forced, turns, s.history)
  }

  /** Every turn finishes with its event. */
  predicate AllFinish(cfg: Config, o: Oracle, forced: bool, turns: seq<Turn>, h: seq<Event>) {
    |h| <= |turns| && forall i | 0 <= i < |h| :: Finishes(cfg, o, forced, h[..i], turns[i], h[i])
  }

  lemma AllFinishOn(cfg: Config, o: Oracle, forced: bool, turns: seq<Turn>, h: seq<Event>, e: Event)
    requires AllFinish(cfg, o, forced, turns, h) && |h| < |turns| && Finishes(cfg, o, forced, h, turns[|h|], e)
    ensures AllFinish(cfg, o, forced, turns, h + [e])
  {
    forall i | 0 <= i < |h + [e]| ensures Finishes(cfg, o, forced, (h + [e])[..i], turns[i], (h + [e])[i]) {
      assert (h + [e])[..i] == h[..i];
      assert h[..|h|] == h;
    }
  }

  lemma TranscriptOn(turns: seq<Turn>, h: seq<Event>, e: Event)
    requires |h| < |turns|
    ensures Transcript(turns, h + [e]) == Transcript(turns, h) + Injection(turns[|h|]) + Reaction(turns[|h|], h + [e])
    ensures NudgesPending(h + [e]) ==
            if e.Executed? || e == HandledText(false) then 0 else NudgesPending(h) + if e.Nudged? then 1 else 0
    ensures Truncations(h + [e]) == Truncations(h) + if e.Truncated? then 1 else 0
  {
    assert (h + [e])[..|h|] == h;
  }

  lemma WarningFollows(t: Tracker, h: seq<Event>, fp: nat, allFailed: bool)
    requires TracksStreak(t, Seen(h))
    ensures var g := h + [Executed(fp, allFailed)];
            forall turn :: Reaction(turn, g) == if Record(t, fp, allFailed).count >= DUPLICATE_WARNING_THRESHOLD then [DuplicateWarning] else []
  {
    HistoryExtends(h, Executed(fp, allFailed));
    RecordTracks(t, Seen(h), fp, allFailed);
    CountReaches(Seen(h) + [Executed(fp, allFailed)], Record(t, fp, allFailed).count, DUPLICATE_WARNING_THRESHOLD);
  }

  /** What an iteration at turn `k` does to the history, the nudges and the messages. */
  ghost predicate Advanced(cfg: Config, o: Oracle, forced: bool, s: State, t: Turn, e: Event, after: State) {
    && after.history == s.history + [e] && Finishes(cfg, o, forced, s.history, t, e)
    && after.nudges == (if e.Executed? || e == HandledText(false) then 0 else s.nudges + if e.Nudged? then 1 else 0)
    && after.messages == s.messages + Injection(t) + Reaction(t, s.history + [e])
  }

  /** What is kept when an iteration ends the run. */
  ghost predicate Ended(cfg: Config, o: Oracle, forced: bool, s: State, t: Turn, end: End, after: State) {
    Ends(cfg, o, forced, s.history, t, end) && after.history == s.history && after.messages == s.messages + Injection(t)
  }

  lemma TextAdvances(cfg: Config, o: Oracle, forced: bool, s: State, t: Turn, iteration: nat)
    requires (s.forceText <==> Forced(forced, s.history)) && s.nudges == NudgesPending(s.history)
    requires !t.signal.Stop? && t.before.None? && t.reply.Some? && t.reply.value.Text?
    ensures match TextStep(cfg, o, Injected(s, t), t, iteration, t.reply.value.text)
            case Go(after) => exists e :: Advanced(cfg, o, forced, s, t, e, after)
            case Done(end, after) => Ended(cfg, o, forced, s, t, end, after)
  {
    var text := t.reply.value.text;
    var r := TextStep(cfg, o, Injected(s, t), t, iteration, text);
    if r.Go? {
      var e := r.state.history[|s.history|];
      assert Injected(s, t).messages == s.messages + Injection(t);
      assert Advanced(cfg, o, forced, s, t, e, r.state);
    }
  }

  lemma BatchAdvances(cfg: Config, o: Oracle, forced: bool, s: State, t: Turn, iteration: nat)
    requires TracksStreak(s.tracker, Seen(s.history))
    requires !t.signal.Stop? && t.before.None? && t.reply.Some? && t.reply.value.Tools? && !t.reply.value.truncated
    requires t.execution.ExecDone?
    ensures var fp, failed := Fingerprint(o, t.reply.value.calls), t.execution.allFailed;
            Advanced(cfg, o, forced, s, t, Executed(fp, failed), Finish(AfterBatch(Injected(s, t), fp, failed), iteration, Executed(fp, failed)).state)
  {
    var fp, failed := Fingerprint(o, t.reply.value.calls), t.execution.allFailed;
    WarningFollows(s.tracker, s.history, fp, failed);
    BatchSays(s, t, fp, failed, s.history + [Executed(fp, failed)]);
    assert Finishes(cfg, o, forced, s.history, t, Executed(fp, failed));
  }

  lemma BatchSays(s: State, t: Turn, fp: nat, failed: bool, h: seq<Event>)
    requires h != [] && Reaction(t, h) == if Record(s.tracker, fp, failed).count >= DUPLICATE_WARNING_THRESHOLD then [DuplicateWarning] else []
    ensures AfterBatch(Injected(s, t), fp, failed).messages == s.messages + Injection(t) + Reaction(t, h)
  {
    assert Injected(s, t).messages == s.messages + Injection(t);
  }

  lemma TruncationAdvances(cfg: Config, o: Oracle, forced: bool, s: State, t: Turn, iteration: nat, said: seq<Message>)
    requires !t.signal.Stop? && t.before.None? && t.reply.Some? && t.reply.value.Tools? && t.reply.value.truncated
    requires said == if t.reply.value.content.Some? then [Assistant(t.reply.value.content.value)] else []
    ensures Advanced(cfg, o, forced, s, t, Truncated, Finish(AfterTruncation(Injected(s, t), said), iteration, Truncated).state)
  {
    assert Injected(s, t).messages == s.messages + Injection(t);
    assert (s.messages + Injection(t)) + said + [TruncationNotice] == s.messages + Injection(t) + (said + [TruncationNotice]);
  }

  lemma ToolsAdvance(cfg: Config, o: Oracle, forced: bool, s: State, t: Turn, iteration: nat)
    requires TracksStreak(s.tracker, Seen(s.history))
    requires !t.signal.Stop? && t.before.None? && t.reply.Some? && t.reply.value.Tools?
    ensures match ToolStep(o, Injected(s, t), t, iteration, t.reply.value)
            case Go(after) => exists e :: Advanced(cfg, o, forced, s, t, e, after)
            case Done(end, after) => Ended(cfg, o, forced, s, t, end, after)
  {
    var reply := t.reply.value;
    if reply.truncated {
      TruncationAdvances(cfg, o, forced, s, t, iteration, if reply.content.Some? then [Assistant(reply.content.value)] else []);
    } else if t.execution.ExecDone? {
      BatchAdvances(cfg, o, forced, s, t, iteration);
    } else {
      assert Injected(s, t).messages == s.messages + Injection(t);
    }
  }

  lemma IterationAdvances(cfg: Config, o: Oracle, forced: bool, s: State, t: Turn)
    requires Explains(cfg, forced, s) && s.nudges == NudgesPending(s.history)
    ensures match Iterate(cfg, o, s, t, |s.history| + 1)
            case Go(after) => exists e :: Advanced(cfg, o, forced, s, t, e, after)
            case Done(end, after) => Ended(cfg, o, forced, s, t, end, after)
  {
    if !t.signal.Stop? && t.before.None? && t.reply.Some? {
      if t.reply.value.Text? {
        TextAdvances(cfg, o, forced, s, t, |s.history| + 1);
      } else {
        ToolsAdvance(cfg, o, forced, s, t, |s.history| + 1);
      }
    } else {
      assert Injected(s, t).messages == s.messages + Injection(t);
    }
  }

  // ---- Whole runs ----

  /** How a run that has ended is explained by its turns. */
  ghost predicate EndedInTurn(cfg: Config, o: Oracle, forced: bool, turns: seq<Turn>, end: End, s: State) {
    var k := |s.history|;
    && k < |turns| && AllFinish(cfg, o, forced, turns, s.history)
    && Ends(cfg, o, forced, s.history, turns[k], end)
    && s.messages == Transcript(turns, s.history) + Injection(turns[k])
  }

  /** One more finished turn. */
  lemma InTurnOn(cfg: Config, o: Oracle, forced: bool, turns: seq<Turn>, s: State, e: Event, after: State)
    requires InTurn(cfg, o, forced, turns, s, |s.history|) && |s.history| < |turns| && Explains(cfg, forced, after)
    requires Advanced(cfg, o, forced, s, turns[|s.history|], e, after)
    ensures InTurn(cfg, o, forced, turns, after, |s.history| + 1)
  {
    AllFinishOn(cfg, o, forced, turns, s.history, e);
    TranscriptOn(turns, s.history, e);
  }

  /** How the run stands after some iterations, explained by its turns. */
  ghost predicate Followed(cfg: Config, o: Oracle, forced: bool, turns: seq<Turn>, n: nat, step: Step) {
    match step
    case Go(s) => InTurn(cfg, o, forced, turns, s, n)
    case Done(end, s) => EndedInTurn(cfg, o, forced, turns, end, s)
  }

  lemma IterationFollows(cfg: Config, o: Oracle, forced: bool, turns: seq<Turn>, s: State, r: Step)
    requires InTurn(cfg, o, forced, turns, s, |s.history|) && |s.history| < |turns|
    requires r == Iterate(cfg, o, s, turns[|s.history|], |s.history| + 1) && (r.Go? ==> Explains(cfg, forced, r.state))
    ensures Followed(cfg, o, forced, turns, |s.history| + 1, r)
  {
    IterationAdvances(cfg, o, forced, s, turns[|s.history|]);
    if r.Go? {
      var e :| Advanced(cfg, o, forced, s, turns[|s.history|], e, r.state);
      InTurnOn(cfg, o, forced, turns, s, e, r.state);
    }
  }

  lemma {:induction false} RunInTurn(cfg: Config, o: Oracle, turns: seq<Turn>, forced: bool, n: nat)
    requires n <= |turns|
    ensures Followed(cfg, o, forced, turns, n, After(cfg, o, turns, forced, n))
  {
    RunExplained(cfg, o, turns, forced, n);
    if n > 0 {
      RunInTurn(cfg, o, turns, forced, n - 1);
      var before := After(cfg, o, turns, forced, n - 1);
      if before.Go? { IterationFollows(cfg, o, forced, turns, before.state, After(cfg, o, turns, forced, n)); }
    }
  }

  lemma {:induction false} TranscriptCounts(cfg: Config, o: Oracle, forced: bool, turns: seq<Turn>, h: seq<Event>)
    requires AllFinish(cfg, o, forced, turns, h)
    ensures Count(Transcript(turns, h), Nudge) == Nudges(h) && Count(Transcript(turns, h), TruncationNotice) == Truncations(h)
  {
    if h != [] {
      var init, t := h[..|h| - 1], turns[|h| - 1];
      forall i | 0 <= i < |init| ensures Finishes(cfg, o, forced, init[..i], turns[i], init[i]) { assert init[..i] == h[..i]; }
      TranscriptCounts(cfg, o, forced, turns, init);
      assert Finishes(cfg, o, forced, h[..|h| - 1], t, h[|h| - 1]);
      SaidCounts(Transcript(turns, init), t, h, Nudge);
      SaidCounts(Transcript(turns, init), t, h, TruncationNotice);
    }
  }

  lemma SaidCounts(before: seq<Message>, t: Turn, h: seq<Event>, m: Message)
    requires h != [] && (m == Nudge || m == TruncationNotice) && (h[|h| - 1].Nudged? ==> t.reply.Some? && t.reply.value.Text?)
    ensures Count(before + Injection(t) + Reaction(t, h), m) ==
            Count(before, m) + if (m == Nudge && h[|h| - 1].Nudged?) || (m == TruncationNotice && h[|h| - 1].Truncated?) then 1 else 0
  {
    var said := Reaction(t, h);
    CountExtends(before + Injection(t), said, m);
    InjectionCounts(before, t, m);
    ReactionEnds(t, h, m);
    ReactionCounts(said, m);
  }

  /** The message of a kind of its own comes last. */
  lemma ReactionEnds(t: Turn, h: seq<Event>, m: Message)
    requires h != [] && (m == Nudge || m == TruncationNotice) && (h[|h| - 1].Nudged? ==> t.reply.Some? && t.reply.value.Text?)
    ensures var said := Reaction(t, h);
            && |said| <= 2 && (|said| == 2 ==> said[0] != m)
            && (said != [] && said[|said| - 1] == m <==>
                  (m == Nudge && h[|h| - 1].Nudged?) || (m == TruncationNotice && h[|h| - 1].Truncated?))
  {
  }

  lemma InjectionCounts(before: seq<Message>, t: Turn, m: Message)
    requires m == Nudge || m == TruncationNotice
    ensures Count(before + Injection(t), m) == Count(before, m)
  {
    CountExtends(before, Injection(t), m);
    CountNone(Injection(t), m);
  }

  /** At most two messages, of which only the last can be the one counted. */
  lemma ReactionCounts(ms: seq<Message>, m: Message)
    requires |ms| <= 2 && (|ms| == 2 ==> ms[0] != m)
    ensures Count(ms, m) == if ms != [] && ms[|ms| - 1] == m then 1 else 0
  {
    if ms != [] {
      assert m !in ms[..|ms| - 1];
      CountNone(ms[..|ms| - 1], m);
    }
  }

  /** The event of turn `i` is a nudge exactly when its reply is to be nudged, and likewise for the other events. */
  predicate NudgedExactly(cfg: Config, o: Oracle, forced: bool, turns: seq<Turn>, h: seq<Event>)
    requires |h| <= |turns|
  {
    forall i | 0 <= i < |h| ::
      && (h[i].Nudged? <==> ToBeNudged(cfg, o, forced, h[..i], turns[i]))
      && (h[i].Truncated? <==> turns[i].reply.Some? && turns[i].reply.value.Tools? && turns[i].reply.value.truncated)
  }

  lemma FinishedExactly(cfg: Config, o: Oracle, forced: bool, turns: seq<Turn>, h: seq<Event>)
    requires AllFinish(cfg, o, forced, turns, h)
    ensures NudgedExactly(cfg, o, forced, turns, h)
  {
    forall i | 0 <= i < |h|
      ensures h[i].Nudged? <==> ToBeNudged(cfg, o, forced, h[..i], turns[i])
      ensures h[i].Truncated? <==> turns[i].reply.Some? && turns[i].reply.value.Tools? && turns[i].reply.value.truncated
    {
      assert Finishes(cfg, o, forced, h[..i], turns[i], h[i]);
    }
  }

  /**
   * Every run, from its turns alone: each finished turn ended in the event its reply and the events before call for; a run that
   * ends early ends as the next turn says; and every message the loop pushed is accounted for, in order.
   */
  lemma RunFollowsTurns(cfg: Config, o: Oracle, turns: seq<Turn>, forced: bool)
    requires |turns| == cfg.maxIterations
    ensures var (end, s) := Run(cfg, o, turns, forced);
            && AllFinish(cfg, o, forced, turns, s.history) && NudgedExactly(cfg, o, forced, turns, s.history)
            && (if end == Exhausted then |s.history| == |turns| && s.messages == Transcript(turns, s.history)
                else EndedInTurn(cfg, o, forced, turns, end, s))
            && Count(s.messages, Nudge) == Nudges(s.history) && Count(s.messages, TruncationNotice) == Truncations(s.history)
  {
    RunInTurn(cfg, o, turns, forced, cfg.maxIterations);
    RunExplained(cfg, o, turns, forced, cfg.maxIterations);
    var (end, s) := Run(cfg, o, turns, forced);
    FinishedExactly(cfg, o, forced, turns, s.history);
    TranscriptCounts(cfg, o, forced, turns, s.history);
    if end != Exhausted {
      InjectionCounts(Transcript(turns, s.history), turns[|s.history|], Nudge);
      InjectionCounts(Transcript(turns, s.history), turns[|s.history|], TruncationNotice);
    }
  }
}
