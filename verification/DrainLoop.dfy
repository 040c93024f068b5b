/** One user message through `handle_message` and `run`: the drain loop, and what the channel sees. */
module DrainLoop {
  import opened Options
  import opened Sequences

  /** What `process_user_input` returns. */
  datatype TurnResult =
    | Response(content: string)
    | Ok(message: Option<string>)
    | Error(text: string)
    | Interrupted
    | AuthPending
    | NeedApproval
    | HardError(text: string)

  /**
   * One call of `process_user_input`: messages queued meanwhile, its result, whether the thread is there afterwards, and
   * whether the channel takes the response if it is sent from the drain loop.
   */
  datatype Turn = Turn(arrivals: seq<string>, result: TurnResult, threadAtRequeue: bool, threadAtDrain: bool, delivers: bool)

  /** What the channel is asked to do, and whether it takes a response. */
  datatype Event = Reply(text: string, delivered: bool) | DoneStatus

  datatype HandleOutcome = Respond(text: string) | NoResponse | Pending | Shutdown | Failed(text: string)

  /** The `BeforeOutbound` hook. */
  datatype Hook = Blocked | Modified(text: string) | Unchanged

  /** Texts joined with newlines, as `drain_pending_messages` merges them. */
  function Join(texts: seq<string>): string {
    if texts == [] then "" else if |texts| == 1 then texts[0] else texts[0] + "\n" + Join(texts[1..])
  }

  /** Merging some texts first makes no difference to the joined whole. */
  lemma {:induction false} JoinMerged(before: seq<string>, merged: seq<string>, after: seq<string>)
    requires merged != []
    ensures Join(before + [Join(merged)] + after) == Join(before + merged + after)
    decreases |before|, |merged|
  {
    if before != [] {
      JoinMerged(before[1..], merged, after);
      JoinTail(before[0], before[1..] + [Join(merged)] + after);
      JoinTail(before[0], before[1..] + merged + after);
      assert before + [Join(merged)] + after == [before[0]] + (before[1..] + [Join(merged)] + after);
      assert before + merged + after == [before[0]] + (before[1..] + merged + after);
    } else {
      assert before + [Join(merged)] + after == [Join(merged)] + after && before + merged + after == merged + after;
      JoinHead(merged, after);
    }
  }

  lemma JoinTail(first: string, rest: seq<string>)
    requires rest != []
    ensures Join([first] + rest) == first + "\n" + Join(rest)
  {
    assert ([first] + rest)[1..] == rest;
  }

  lemma {:induction false} JoinHead(merged: seq<string>, after: seq<string>)
    requires merged != []
    ensures Join([Join(merged)] + after) == Join(merged + after)
    decreases |merged|
  {
    if after == [] {
      assert [Join(merged)] + after == [Join(merged)] && merged + after == merged;
    } else if |merged| == 1 {
      assert merged == [merged[0]];
    } else {
      var first, rest := merged[0], merged[1..];
      JoinHead(rest, after);
      assert merged == [first] + rest;
      JoinHeadCons(first, rest, after);
    }
  }

  lemma JoinHeadCons(first: string, rest: seq<string>, after: seq<string>)
    requires rest != [] && after != [] && Join([Join(rest)] + after) == Join(rest + after)
    ensures Join([Join([first] + rest)] + after) == Join([first] + rest + after)
  {
    JoinTail(first, rest);
    JoinTail(Join([first] + rest), after);
    JoinTail(Join(rest), after);
    assert [first] + rest + after == [first] + (rest + after);
    JoinTail(first, rest + after);
    LinesRegroup(first, Join(rest), Join(after));
  }

  lemma LinesRegroup(a: string, b: string, c: string)
    ensures a + "\n" + b + "\n" + c == a + "\n" + (b + "\n" + c)
  {
  }

  // ---- The session thread and the channel ----

  class Thread {
    var pending: seq<string>

    constructor (pending: seq<string>)
      ensures this.pending == pending
    {
      this.pending := pending;
    }

    /** Messages queued while a turn is processed. */
    method Queue(texts: seq<string>)
      modifies this
      ensures pending == old(pending) + texts
    {
      pending := pending + texts;
    }

    method DrainPendingMessages() returns (merged: Option<string>)
      modifies this
      ensures pending == []
      ensures merged == if old(pending) == [] then None else Some(Join(old(pending)))
    {
      if pending == [] { return None; }
      merged := Some(Join(pending));
      pending := [];
    }

    method RequeueDrained(text: string)
      modifies this
      ensures pending == [text] + old(pending)
    {
      pending := [text] + pending;
    }
  }

  class Channel {
    var sent: seq<Event>

    constructor ()
      ensures sent == []
    {
      sent := [];
    }

    /** Whether or not the channel takes the response, the turn is closed; the caller learns which. */
    method RespondThenDone(text: string, delivers: bool) returns (delivered: bool)
      modifies this
      ensures delivered == delivers
      ensures sent == old(sent) + [Reply(text, delivers), DoneStatus]
    {
      sent := sent + [Reply(text, delivers)];
      delivered := delivers;
      sent := sent + [DoneStatus];
    }

    method SendDone()
      modifies this
      ensures sent == old(sent) + [DoneStatus]
    {
      sent := sent + [DoneStatus];
    }
  }

  // ---- What a run of the drain loop amounts to ----

  /** The same text, however it is cut into messages. */
  predicate SameText(a: seq<string>, b: seq<string>) {
    Join(a) == Join(b) && (a == [] <==> b == [])
  }

  /** Everything queued by the first `n` turns, in order of arrival. */
  function Arrived(start: seq<string>, turns: seq<Turn>, n: nat): seq<string>
    requires n <= |turns|
  {
    if n == 0 then start else Arrived(start, turns, n - 1) + turns[n - 1].arrivals
  }

  /** What is queued when turn `i` of the drain loop ends: every turn before it was drained. */
  function QueuedAfter(start: seq<string>, turns: seq<Turn>, i: nat): seq<string>
    requires i < |turns|
  {
    (if i == 0 then start else []) + turns[i].arrivals
  }

  /** Turn `i` is followed by another: it is a response, the thread is there, and something is queued. */
  predicate Continues(start: seq<string>, turns: seq<Turn>, i: nat)
    requires i < |turns|
  {
    turns[i].result.Response? && turns[i].threadAtDrain && QueuedAfter(start, turns, i) != []
  }

  /** So is each of the first `n` turns. */
  predicate AllContinue(start: seq<string>, turns: seq<Turn>, n: nat)
    requires n <= |turns|
  {
    forall i | 0 <= i < n :: Continues(start, turns, i)
  }

  /** The responses of the first `n` turns, each followed by Done. */
  function Pairs(turns: seq<Turn>, n: nat): seq<Event>
    requires n <= |turns| && forall i | 0 <= i < n :: turns[i].result.Response?
  {
    if n == 0 then [] else Pairs(turns, n - 1) + [Reply(turns[n - 1].result.content, turns[n - 1].delivers), DoneStatus]
  }

  /** Each of them once and in order. */
  lemma {:induction false} PairsInOrder(turns: seq<Turn>, n: nat, i: nat)
    requires n <= |turns| && (forall j | 0 <= j < n :: turns[j].result.Response?) && i < n
    ensures |Pairs(turns, n)| == 2 * n
    ensures Pairs(turns, n)[2 * i] == Reply(turns[i].result.content, turns[i].delivers) && Pairs(turns, n)[2 * i + 1] == DoneStatus
  {
    if i < n - 1 { PairsInOrder(turns, n - 1, i); } else if n > 1 { PairsInOrder(turns, n - 1, 0); }
  }

  /** The first `n` turns are answered first, one after the other. */
  predicate OnceInOrder(sent: seq<Event>, turns: seq<Turn>, n: nat)
    requires n <= |turns| && forall i | 0 <= i < n :: turns[i].result.Response?
  {
    2 * n <= |sent| && forall i | 0 <= i < n :: AnsweredAt(sent, turns[i], 2 * i)
  }

  predicate AnsweredAt(sent: seq<Event>, t: Turn, k: nat)
    requires t.result.Response?
  {
    k + 1 < |sent| && sent[k] == Reply(t.result.content, t.delivers) && sent[k + 1] == DoneStatus
  }

  lemma PairsOnceInOrder(turns: seq<Turn>, n: nat, more: nat, last: seq<Event>)
    requires n <= more <= |turns| && forall j | 0 <= j < more :: turns[j].result.Response?
    ensures OnceInOrder(Pairs(turns, more) + last, turns, n)
  {
    if more > 0 { PairsInOrder(turns, more, 0); }
    forall i | 0 <= i < n ensures AnsweredAt(Pairs(turns, more) + last, turns[i], 2 * i) { PairsInOrder(turns, more, i); }
  }

  /**
   * Nothing queued by the first `used` turns is lost, doubled or reordered: it was answered or is in the queue. Only what a
   * turn other than the first had drained is gone if the thread is gone when it should go back.
   */
  predicate Balanced(start: seq<string>, turns: seq<Turn>, used: nat, answered: seq<string>, pending: seq<string>)
    requires 1 <= used <= |turns|
  {
    turns[used - 1].result.Response? || turns[used - 1].threadAtRequeue || used == 1 ==>
      SameText(answered + pending, Arrived(start, turns, used))
  }

  /**
   * The drain loop over a script of turns. It may still be waiting for a turn when the script ends.
   * `answered` is ghost: the merged texts whose turn ended in a response.
   */
  method ProcessAndDrain(thread: Thread, channel: Channel, turns: seq<Turn>) returns (used: nat, waiting: bool, ghost answered: seq<string>)
    requires turns != []
    modifies thread, channel
    ensures 1 <= used <= |turns| && (waiting ==> used == |turns| && turns[used - 1].result.Response?)
    ensures forall i | 0 <= i < used - 1 :: turns[i].result.Response?
    // the loop goes on exactly after the turns that call for it
    ensures AllContinue(old(thread.pending), turns, used - 1)
    ensures waiting <==> Continues(old(thread.pending), turns, used - 1)
    // every finished turn but the last has been sent, once and in order
    ensures channel.sent == old(channel.sent) + Pairs(turns, if waiting then used else used - 1)
    // a turn that is not a response ends the loop; a response ends it only when nothing is left to drain
    ensures !waiting && turns[used - 1].result.Response? && turns[used - 1].threadAtDrain ==> thread.pending == []
    // nothing queued is lost, doubled or reordered
    ensures !waiting ==> Balanced(old(thread.pending), turns, used, answered, thread.pending)
  {
    ghost var start := thread.pending;
    thread.Queue(turns[0].arrivals);
    used, waiting, answered := 1, false, [];
    assert answered + thread.pending == Arrived(start, turns, 1);
    while turns[used - 1].result.Response?
      invariant 1 <= used <= |turns| && !waiting
      invariant forall i | 0 <= i < used - 1 :: turns[i].result.Response?
      invariant AllContinue(start, turns, used - 1)
      invariant turns[used - 1].result.Response? ==> thread.pending == QueuedAfter(start, turns, used - 1)
      invariant channel.sent == old(channel.sent) + Pairs(turns, used - 1)
      invariant Balanced(start, turns, used, answered, thread.pending)
      decreases |turns| - used
    {
      if !turns[used - 1].threadAtDrain { break; }
      ghost var queued := thread.pending;
      var merged := thread.DrainPendingMessages();
      if merged.None? { break; }
      var delivered := channel.RespondThenDone(turns[used - 1].result.content, turns[used - 1].delivers);
      if used == |turns| {
        waiting := true;
        break;
      }
      answered := NextTurn(thread, turns[used], merged.value, answered, queued, Arrived(start, turns, used));
      used := used + 1;
    }
  }

  /** One turn of the drain loop: the merged text is processed, and counts as answered or goes back into the queue. */
  method NextTurn(thread: Thread, t: Turn, merged: string, ghost answered: seq<string>, ghost queued: seq<string>, ghost arrived: seq<string>)
    returns (ghost answered': seq<string>)
    requires thread.pending == [] && queued != [] && merged == Join(queued) && SameText(answered + queued, arrived)
    modifies thread
    ensures t.result.Response? || t.threadAtRequeue ==> SameText(answered' + thread.pending, arrived + t.arrivals)
    ensures t.result.Response? ==> thread.pending == t.arrivals
  {
    thread.Queue(t.arrivals);
    assert thread.pending == t.arrivals;
    DrainedOnce(answered, queued, t.arrivals, arrived);
    answered' := answered;
    if t.result.Response? {
      answered' := answered + [merged];
    } else if t.threadAtRequeue {
      thread.RequeueDrained(merged);
    }
  }

  /** Draining, merging and what arrives meanwhile, in terms of all that ever arrived. */
  lemma DrainedOnce(answered: seq<string>, queued: seq<string>, arrivals: seq<string>, arrived: seq<string>)
    requires queued != [] && SameText(answered + queued, arrived)
    ensures SameText(answered + [Join(queued)] + arrivals, arrived + arrivals)
    ensures SameText(answered + ([Join(queued)] + arrivals), arrived + arrivals)
  {
    JoinMerged(answered, queued, arrivals);
    Regroup(answered, [Join(queued)], arrivals);
    JoinExtends(answered + queued, arrived, arrivals);
  }

  /** Only the joined text matters for what is appended. */
  lemma JoinExtends(a: seq<string>, b: seq<string>, more: seq<string>)
    requires Join(a) == Join(b) && a != [] && b != []
    ensures Join(a + more) == Join(b + more)
  {
    JoinHead(a, more);
    JoinHead(b, more);
  }

  // ---- From the last result to the channel ----

  const PENDING_SENTINEL := "\0__bridge_pending__"

  /** `HandleOutcome::from_legacy`. */
  function FromLegacy(message: Option<string>): HandleOutcome {
    match message
    case None => Shutdown
    case Some(s) => if s == PENDING_SENTINEL then Pending else if s == "" then NoResponse else Respond(s)
  }

  /** The conversion at the end of `handle_message`; `exitOnEmpty` is the single-message REPL's exit test. */
  function Convert(r: TurnResult, isSilent: string -> bool, exitOnEmpty: bool): HandleOutcome {
    match r
    case Response(content) => if isSilent(content) then Shutdown else if content == "" then NoResponse else Respond(content)
    case Ok(message) => if message == Some("") && exitOnEmpty then Shutdown else FromLegacy(message)
    case Error(text) => Respond("Error: " + text)
    case Interrupted => Respond("Interrupted.")
    case AuthPending => Pending
    case NeedApproval => Pending
    case HardError(text) => Failed(text)
  }

  /** What `run` sends for an outcome. */
  function Final(outcome: HandleOutcome, hook: Hook, delivers: bool): seq<Event> {
    match outcome
    case Respond(text) =>
      (match hook
       case Blocked => [DoneStatus]
       case Modified(other) => [Reply(other, delivers), DoneStatus]
       case Unchanged => [Reply(text, delivers), DoneStatus])
    case NoResponse => [DoneStatus]
    case Pending => []
    case Shutdown => []
    case Failed(text) => [Reply("Error: " + text, delivers), DoneStatus]
  }

  method Dispatch(channel: Channel, outcome: HandleOutcome, hook: Hook, delivers: bool) returns (shutdown: bool)
    modifies channel
    ensures channel.sent == old(channel.sent) + Final(outcome, hook, delivers) && shutdown == outcome.Shutdown?
  {
    shutdown := false;
    var delivered := true;
    match outcome
    case Respond(text) =>
      match hook {
        case Blocked => channel.SendDone();
        case Modified(other) => delivered := channel.RespondThenDone(other, delivers);
        case Unchanged => delivered := channel.RespondThenDone(text, delivers);
      }
    case NoResponse => channel.SendDone();
    case Pending =>
    case Shutdown => shutdown := true;
    case Failed(text) => delivered := channel.RespondThenDone("Error: " + text, delivers);
  }

  // ---- The last answer, from the turn's result and the hook ----

  /** The text that the last result has for the user, and the hook may still change or hold back. */
  predicate Says(r: TurnResult, isSilent: string -> bool, text: string) {
    || (r == Response(text) && text != "" && !isSilent(text))
    || (r == Ok(Some(text)) && text != "" && text != PENDING_SENTINEL)
    || (r.Error? && text == "Error: " + r.text)
    || (r.Interrupted? && text == "Interrupted.")
  }

  /** Nothing to say, but the turn is over. */
  predicate SaysNothing(r: TurnResult, isSilent: string -> bool, exitOnEmpty: bool) {
    (r == Response("") && !isSilent("")) || (r == Ok(Some("")) && !exitOnEmpty)
  }

  /** The agent stops: a silent reply, no message at all, or the exit of the single-message REPL. */
  predicate Stops(r: TurnResult, isSilent: string -> bool, exitOnEmpty: bool) {
    (r.Response? && isSilent(r.content)) || r == Ok(None) || (r == Ok(Some("")) && exitOnEmpty)
  }

  /** The turn is paused, or the agent stops: the channel hears nothing at all. */
  predicate Hushed(r: TurnResult, isSilent: string -> bool, exitOnEmpty: bool) {
    r.AuthPending? || r.NeedApproval? || r == Ok(Some(PENDING_SENTINEL)) || Stops(r, isSilent, exitOnEmpty)
  }

  /** What the channel is sent last. */
  ghost predicate LastAnswer(r: TurnResult, isSilent: string -> bool, exitOnEmpty: bool, hook: Hook, delivers: bool, last: seq<Event>) {
    && (forall text | Says(r, isSilent, text) ::
          && (hook.Unchanged? ==> last == [Reply(text, delivers), DoneStatus])
          && (forall other | hook == Modified(other) :: last == [Reply(other, delivers), DoneStatus])
          && (hook.Blocked? ==> last == [DoneStatus]))
    && (forall text | r == HardError(text) :: last == [Reply("Error: " + text, delivers), DoneStatus])
    && (SaysNothing(r, isSilent, exitOnEmpty) ==> last == [DoneStatus])
    && (last == [] <==> Hushed(r, isSilent, exitOnEmpty))
  }

  /** Every result is one of these, so the last answer is always determined. */
  lemma SaysOrNot(r: TurnResult, isSilent: string -> bool, exitOnEmpty: bool)
    ensures (exists text :: Says(r, isSilent, text)) || r.HardError? || SaysNothing(r, isSilent, exitOnEmpty) || Hushed(r, isSilent, exitOnEmpty)
  {
    match r
    case Response(content) => assert content != "" && !isSilent(content) ==> Says(r, isSilent, content);
    case Ok(message) => assert message.Some? && message.value != "" && message.value != PENDING_SENTINEL ==> Says(r, isSilent, message.value);
    case Error(text) => assert Says(r, isSilent, "Error: " + text);
    case Interrupted => assert Says(r, isSilent, "Interrupted.");
    case _ =>
  }

  lemma FinalAnswer(r: TurnResult, isSilent: string -> bool, exitOnEmpty: bool, hook: Hook, delivers: bool)
    ensures LastAnswer(r, isSilent, exitOnEmpty, hook, delivers, Final(Convert(r, isSilent, exitOnEmpty), hook, delivers))
    ensures Convert(r, isSilent, exitOnEmpty).Shutdown? <==> Stops(r, isSilent, exitOnEmpty)
  {
  }

  /** (Reply Done)* and then Reply Done, or Done alone, or nothing. */
  predicate WellShaped(sent: seq<Event>) {
    if sent == [] then true
    else if sent == [DoneStatus] then true
    else |sent| >= 2 && sent[0].Reply? && sent[1] == DoneStatus && WellShaped(sent[2..])
  }

  lemma {:induction false} PairsThen(turns: seq<Turn>, n: nat, last: seq<Event>)
    requires n <= |turns| && (forall i | 0 <= i < n :: turns[i].result.Response?) && WellShaped(last)
    ensures WellShaped(Pairs(turns, n) + last)
    decreases n
  {
    if n == 0 {
      assert Pairs(turns, 0) + last == last;
    } else {
      var more := [Reply(turns[n - 1].result.content, turns[n - 1].delivers), DoneStatus] + last;
      assert more[2..] == last;
      PairsThen(turns, n - 1, more);
      assert Pairs(turns, n) + last == Pairs(turns, n - 1) + more;
    }
  }

  /** For every handled message the channel sees a well-shaped trace, whose last part is empty exactly on a pause or a shutdown. */
  lemma ChannelTrace(turns: seq<Turn>, used: nat, outcome: HandleOutcome, hook: Hook, delivers: bool)
    requires 1 <= used <= |turns| && forall i | 0 <= i < used - 1 :: turns[i].result.Response?
    ensures WellShaped(Pairs(turns, used - 1) + Final(outcome, hook, delivers))
    ensures Final(outcome, hook, delivers) == [] <==> outcome.Pending? || outcome.Shutdown?
  {
    FinalShape(outcome, hook, delivers);
    PairsThen(turns, used - 1, Final(outcome, hook, delivers));
  }

  lemma FinalShape(outcome: HandleOutcome, hook: Hook, delivers: bool)
    ensures WellShaped(Final(outcome, hook, delivers))
  {
    var last := Final(outcome, hook, delivers);
    assert |last| == 2 ==> last[2..] == [];
  }

  lemma TraceShape(turns: seq<Turn>, n: nat, more: nat, last: seq<Event>)
    requires n <= more <= |turns| && (forall j | 0 <= j < more :: turns[j].result.Response?) && WellShaped(last)
    ensures var sent := Pairs(turns, more) + last;
            WellShaped(sent) && OnceInOrder(sent, turns, n) && sent[|Pairs(turns, more)|..] == last
  {
    PairsThen(turns, more, last);
    PairsOnceInOrder(turns, n, more, last);
  }

  /** The end of `handle_message` and its outcome in `run`. */
  method Conclude(channel: Channel, r: TurnResult, isSilent: string -> bool, exitOnEmpty: bool, hook: Hook, delivers: bool)
    returns (shutdown: bool, ghost last: seq<Event>)
    modifies channel
    ensures channel.sent == old(channel.sent) + last && WellShaped(last)
    ensures LastAnswer(r, isSilent, exitOnEmpty, hook, delivers, last)
    ensures shutdown <==> Stops(r, isSilent, exitOnEmpty)
  {
    var outcome := Convert(r, isSilent, exitOnEmpty);
    last := Final(outcome, hook, delivers);
    FinalAnswer(r, isSilent, exitOnEmpty, hook, delivers);
    FinalShape(outcome, hook, delivers);
    shutdown := Dispatch(channel, outcome, hook, delivers);
  }

  /** A whole message: drain loop, conversion, dispatch. */
  method HandleUserMessage(thread: Thread, channel: Channel, turns: seq<Turn>, isSilent: string -> bool, exitOnEmpty: bool, hook: Hook, delivers: bool)
    returns (used: nat, waiting: bool, shutdown: bool)
    requires turns != [] && channel.sent == []
    modifies thread, channel
    ensures 1 <= used <= |turns| && (forall i | 0 <= i < used - 1 :: turns[i].result.Response?)
    // the drain loop goes on exactly after the turns that call for it, and waits only with something queued
    ensures AllContinue(old(thread.pending), turns, used - 1)
    ensures waiting <==> Continues(old(thread.pending), turns, used - 1)
    ensures waiting ==> used == |turns| && turns[used - 1].result.Response? && channel.sent == Pairs(turns, used)
    // the last turn is answered as its result and the hook say, with nothing in between
    ensures !waiting ==>
              && Pairs(turns, used - 1) <= channel.sent
              && LastAnswer(turns[used - 1].result, isSilent, exitOnEmpty, hook, delivers, channel.sent[|Pairs(turns, used - 1)|..])
    // and the agent leaves its loop exactly on a silent reply, an absent message, or the exit of the single-message REPL
    ensures shutdown <==> !waiting && Stops(turns[used - 1].result, isSilent, exitOnEmpty)
    ensures WellShaped(channel.sent)
    // the turns before the last one were answered once each, in order
    ensures OnceInOrder(channel.sent, turns, used - 1)
  {
    ghost var answered, last;
    used, waiting, answered := ProcessAndDrain(thread, channel, turns);
    shutdown := false;
    if waiting {
      assert channel.sent == Pairs(turns, used) + [];
      TraceShape(turns, used - 1, used, []);
    } else {
      assert channel.sent == Pairs(turns, used - 1);
      shutdown, last := Conclude(channel, turns[used - 1].result, isSilent, exitOnEmpty, hook, delivers);
      TraceShape(turns, used - 1, used - 1, last);
    }
  }
}
