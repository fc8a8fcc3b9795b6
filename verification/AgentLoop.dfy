/** The bounded tool loop of one visit. The model's replies, the tools' outcomes, the run's ownership
    and the deadline are whatever `Env` says; every observation is made at a later instant. */
module AgentLoop {
  datatype ToolCall = ToolCall(id: string, name: string)

  datatype Message =
    | Prompt(content: string)
    | Assistant(calls: seq<ToolCall>)
    | ToolResult(id: string)

  datatype Reply = Failure | Reply(calls: seq<ToolCall>)
  datatype Outcome = Outcome(forceFinish: bool, rejected: bool)

  datatype Env = Env(
    active: nat -> bool,      // the run row still says 'running' at this instant
    expired: nat -> bool,     // the run deadline has passed at this instant
    paused: nat -> bool,      // the turn interval makes the worker sleep first
    reply: nat -> Reply,
    outcome: nat -> Outcome)

  /** A deadline on a monotonic clock stays expired. */
  ghost predicate Monotonic(env: Env) {
    forall t: nat, u: nat :: t <= u && env.expired(t) ==> env.expired(u)
  }

  const NUDGE := Prompt("Use a tool to act, or call finish.")

  datatype Exit = OwnershipLost | Failed | Finished

  datatype Turn = Turn(seqNo: nat, request: seq<Message>, response: Message)

  datatype Transcript = Malformed | Awaiting(calls: seq<ToolCall>)

  /** What a reader of the transcript still waits for: the unanswered calls of the last assistant
      message, or `Malformed` when a call was skipped, answered twice or answered out of order. */
  function Read(ms: seq<Message>): Transcript {
    if ms == [] then Awaiting([])
    else
      var before, m := Read(ms[..|ms| - 1]), ms[|ms| - 1];
      match m
      case ToolResult(id) =>
        if before.Awaiting? && before.calls != [] && before.calls[0].id == id then Awaiting(before.calls[1..])
        else Malformed
      case Assistant(calls) => if before == Awaiting([]) then Awaiting(calls) else Malformed
      case Prompt(_) => if before == Awaiting([]) then Awaiting([]) else Malformed
  }

  /** Every call made so far has been answered exactly once, in order. */
  predicate Answered(ms: seq<Message>) {
    Read(ms) == Awaiting([])
  }

  lemma ReadSnoc(ms: seq<Message>, m: Message)
    ensures m.Assistant? && Answered(ms) ==> Read(ms + [m]) == Awaiting(m.calls)
    ensures m.Prompt? && Answered(ms) ==> Answered(ms + [m])
    ensures m.ToolResult? && Read(ms).Awaiting? && Read(ms).calls != [] && Read(ms).calls[0].id == m.id
            ==> Read(ms + [m]) == Awaiting(Read(ms).calls[1..])
  {
    assert (ms + [m])[..|ms|] == ms;
  }

  /** The transcript has grown past the last stored request and its response. */
  ghost predicate Beyond(turns: seq<Turn>, now: seq<Message>) {
    turns == [] || turns[|turns| - 1].request + [turns[|turns| - 1].response] <= now
  }

  /** Turns are numbered from one; every request is answered up to its end and extends the one before it
      and its response. */
  ghost predicate Chain(initial: seq<Message>, turns: seq<Turn>) {
    turns != [] ==>
      var front, last := turns[..|turns| - 1], turns[|turns| - 1];
      && Chain(initial, front) && last.seqNo == |turns| && last.response.Assistant?
      && Answered(last.request) && initial <= last.request && Beyond(front, last.request)
  }

  lemma ChainSnoc(initial: seq<Message>, turns: seq<Turn>, turn: Turn)
    requires Chain(initial, turns) && turn.seqNo == |turns| + 1 && turn.response.Assistant?
    requires Answered(turn.request) && initial <= turn.request && Beyond(turns, turn.request)
    ensures Chain(initial, turns + [turn])
  {
    assert (turns + [turn])[..|turns|] == turns;
  }

  /** In a chain every request has each earlier call answered, and later requests extend earlier ones and
      what was said to them. */
  lemma {:induction false} ChainMeans(initial: seq<Message>, turns: seq<Turn>, i: nat, j: nat)
    requires Chain(initial, turns) && i <= j < |turns|
    ensures Answered(turns[j].request) && initial <= turns[j].request && turns[j].seqNo == j + 1
    ensures i < j ==> turns[i].request + [turns[i].response] <= turns[j].request
    decreases |turns|
  {
    var n := |turns| - 1;
    if j < n {
      ChainMeans(initial, turns[..n], i, j);
    } else if i < n {
      ChainMeans(initial, turns[..n], i, n - 1);
    }
  }

  datatype Progress = Lost | Ended | CutShort | AllAnswered

  /** A call that was executed and answered. */
  datatype Executed = Executed(call: ToolCall, outcome: Outcome)

  /** The answers to some calls. */
  function Results(calls: seq<ToolCall>): seq<Message> {
    seq(|calls|, i requires 0 <= i < |calls| => ToolResult(calls[i].id))
  }

  lemma {:induction false} ReadResults(said: seq<Message>, calls: seq<ToolCall>, n: nat)
    requires Read(said) == Awaiting(calls) && n <= |calls|
    ensures Read(said + Results(calls[..n])) == Awaiting(calls[n..])
  {
    if n == 0 {
      assert said + Results(calls[..0]) == said;
    } else {
      ReadResults(said, calls, n - 1);
      ReadSnoc(said + Results(calls[..n - 1]), ToolResult(calls[n - 1].id));
      assert said + Results(calls[..n]) == said + Results(calls[..n - 1]) + [ToolResult(calls[n - 1].id)];
    }
  }

  /** The calls executed are the first of the message's, each with the outcome seen at its instant; the worker
      owned the run before and after each, and began none past the deadline. */
  ghost predicate Seen(done: seq<Executed>, at: seq<nat>, calls: seq<ToolCall>, env: Env, start: nat, end: nat) {
    && |done| == |at| <= |calls|
    && (forall i :: 0 <= i < |done| ==> done[i] == Executed(calls[i], env.outcome(at[i])))
    && (forall i :: 0 <= i < |at| ==>
          && start + 3 <= at[i] < end && env.active(at[i] - 2) && !env.expired(at[i] - 1) && env.active(at[i] + 1))
    && (forall i, j :: 0 <= i < j < |at| ==> at[i] < at[j])
  }

  lemma SeenOneMore(done: seq<Executed>, at: seq<nat>, calls: seq<ToolCall>, env: Env, start: nat, end: nat, now: nat)
    requires Seen(done, at, calls, env, start, end) && |done| < |calls| && start <= end && end + 3 <= now
    requires env.active(now - 2) && !env.expired(now - 1) && env.active(now + 1)
    ensures Seen(done + [Executed(calls[|done|], env.outcome(now))], at + [now], calls, env, start, now + 1)
  {
  }

  /** How many rejections in a row there were last; `streak` is the number before these calls. */
  function Trail(done: seq<Executed>, streak: nat): nat {
    if done == [] then streak else if done[|done| - 1].outcome.rejected then 1 else 0
  }

  /** After none of these calls was the visit told to end, and no two in a row were rejected. */
  ghost predicate Unended(done: seq<Executed>, streak: nat) {
    && (forall i :: 0 <= i < |done| ==> done[i].call.name != "finish" && !done[i].outcome.forceFinish)
    && (forall i :: 0 < i < |done| ==> !(done[i - 1].outcome.rejected && done[i].outcome.rejected))
    && (done != [] && streak > 0 ==> !done[0].outcome.rejected)
  }

  /** The last of these calls ended the visit, and none before it did. */
  ghost predicate EndedBy(done: seq<Executed>, streak: nat) {
    done != [] &&
    var front, last := done[..|done| - 1], done[|done| - 1];
    && Unended(front, streak)
    && (last.call.name == "finish" || last.outcome.forceFinish || (last.outcome.rejected && Trail(front, streak) > 0))
  }

  lemma OneMore(done: seq<Executed>, e: Executed, streak: nat)
    requires Unended(done, streak)
    ensures e.call.name != "finish" && !e.outcome.forceFinish && !(e.outcome.rejected && Trail(done, streak) > 0)
            ==> Unended(done + [e], streak)
    ensures e.call.name == "finish" || e.outcome.forceFinish || (e.outcome.rejected && Trail(done, streak) > 0)
            ==> EndedBy(done + [e], streak)
    ensures Trail(done + [e], streak) == if e.outcome.rejected then 1 else 0
  {
    assert (done + [e])[..|done|] == done;
  }

  /** Some calls of a message are answered, and none of them has ended the visit. */
  ghost predicate Underway(calls: seq<ToolCall>, said: seq<Message>, env: Env, start: nat, rejections: nat,
                           executed: seq<Executed>, at: seq<nat>, messages: seq<Message>, t: nat, streak: nat) {
    && start <= t && Seen(executed, at, calls, env, start, t)
    && messages == said + Results(calls[..|executed|])
    && Unended(executed, rejections) && streak == Trail(executed, rejections)
  }

  /** The last of the answered calls has ended the visit. */
  ghost predicate Concluded(calls: seq<ToolCall>, said: seq<Message>, env: Env, start: nat, rejections: nat,
                            executed: seq<Executed>, at: seq<nat>, messages: seq<Message>, t: nat) {
    && start <= t && Seen(executed, at, calls, env, start, t)
    && messages == said + Results(calls[..|executed|]) && EndedBy(executed, rejections)
  }

  lemma NoneYet(calls: seq<ToolCall>, said: seq<Message>, env: Env, start: nat, rejections: nat)
    ensures Underway(calls, said, env, start, rejections, [], [], said, start, rejections)
  {
    assert said + Results(calls[..0]) == said;
  }

  lemma AnswerOne(calls: seq<ToolCall>, said: seq<Message>, env: Env, start: nat, rejections: nat,
                  executed: seq<Executed>, at: seq<nat>, messages: seq<Message>, t: nat, streak: nat, now: nat)
    requires Underway(calls, said, env, start, rejections, executed, at, messages, t, streak)
    requires |executed| < |calls| && t + 3 <= now && env.active(now - 2) && !env.expired(now - 1) && env.active(now + 1)
    ensures var e := Executed(calls[|executed|], env.outcome(now));
            var more, answered := executed + [e], messages + [ToolResult(e.call.id)];
            && (if e.call.name == "finish" || e.outcome.forceFinish || (e.outcome.rejected && streak > 0)
                then Concluded(calls, said, env, start, rejections, more, at + [now], answered, now + 1)
                else Underway(calls, said, env, start, rejections, more, at + [now], answered, now + 1,
                              if e.outcome.rejected then 1 else 0))
  {
    var i := |executed|;
    SeenOneMore(executed, at, calls, env, start, t, now);
    OneMore(executed, Executed(calls[i], env.outcome(now)), rejections);
    assert Results(calls[..i + 1]) == Results(calls[..i]) + [ToolResult(calls[i].id)];
  }

  /** Time passing changes nothing. */
  lemma LaterUnderway(calls: seq<ToolCall>, said: seq<Message>, env: Env, start: nat, rejections: nat,
                      executed: seq<Executed>, at: seq<nat>, messages: seq<Message>, t: nat, streak: nat)
    requires Underway(calls, said, env, start, rejections, executed, at, messages, t, streak)
    ensures forall u: nat :: u >= t ==>
              Underway(calls, said, env, start, rejections, executed, at, messages, u, streak)
  {
  }

  lemma AllAre(calls: seq<ToolCall>, said: seq<Message>)
    requires Read(said) == Awaiting(calls)
    ensures Answered(said + Results(calls[..|calls|]))
  {
    ReadResults(said, calls, |calls|);
    assert calls[|calls|..] == [];
  }

  /** One call: not begun without ownership, budget and time, and not answered if the run is lost meanwhile. */
  method RunOne(maxActions: int, env: Env, actions: nat, start: nat)
    returns (progress: Progress, outcome: Outcome, t: nat)
    ensures start < t && progress in {Lost, CutShort, AllAnswered}
    ensures progress == Lost ==> !env.active(t)
    ensures progress == CutShort ==> actions >= maxActions || env.expired(t)
    ensures progress == AllAnswered ==>
              && t == start + 4 && actions < maxActions && outcome == env.outcome(t - 1)
              && env.active(t - 3) && !env.expired(t - 2) && env.active(t)
  {
    outcome := Outcome(false, false);
    t := start + 1;
    if !env.active(t) { return Lost, outcome, t; }
    t := t + 1;
    if actions >= maxActions || env.expired(t) { return CutShort, outcome, t; }
    t := t + 1;
    outcome := env.outcome(t);
    t := t + 1;
    if !env.active(t) { return Lost, outcome, t; }
    progress := AllAnswered;
  }

  /** The next call, unless ownership, budget or time is gone; it may end the visit. */
  method AnswerNext(calls: seq<ToolCall>, ghost said: seq<Message>, answered: seq<Message>, maxActions: int, env: Env,
                    ghost start: nat, ghost rejections: nat, ghost before: seq<Executed>, ghost atBefore: seq<nat>,
                    done: nat, i: nat, now: nat, rejected: nat)
    returns (progress: Progress, messages: seq<Message>, actions: nat, t: nat, streak: nat,
             ghost executed: seq<Executed>, ghost at: seq<nat>)
    requires i == |before| < |calls| && (done == 0 || done <= maxActions)
    requires Underway(calls, said, env, start, rejections, before, atBefore, answered, now, rejected)
    ensures actions == done + |executed| - i && (actions == 0 || actions <= maxActions)
    ensures |executed| == i + (if progress in {Lost, CutShort} then 0 else 1)
    ensures progress != Ended ==> Underway(calls, said, env, start, rejections, executed, at, messages, t, streak)
    ensures progress == Ended ==> Concluded(calls, said, env, start, rejections, executed, at, messages, t)
    ensures progress == CutShort ==> actions >= maxActions || env.expired(t)
    ensures progress == Lost ==> !env.active(t)
  {
    messages, actions, streak, executed, at := answered, done, rejected, before, atBefore;
    LaterUnderway(calls, said, env, start, rejections, executed, at, messages, now, streak);
    var outcome;
    progress, outcome, t := RunOne(maxActions, env, done, now);
    if progress != AllAnswered { return; }
    AnswerOne(calls, said, env, start, rejections, executed, at, messages, now, streak, t - 1);
    actions := actions + 1;
    messages := messages + [ToolResult(calls[i].id)];
    executed, at := executed + [Executed(calls[i], outcome)], at + [t - 1];
    if outcome.forceFinish || calls[i].name == "finish" { progress := Ended; return; }
    if outcome.rejected {
      streak := streak + 1;
      if streak >= 2 { progress := Ended; return; }
    } else {
      streak := 0;
    }
  }

  /** Executes one assistant message's calls in order, stopping when ownership is lost, the visit is
      told to end, or the budget or the deadline is used up. `at` are the instants of their outcomes. */
  method RunCalls(calls: seq<ToolCall>, said: seq<Message>, maxActions: int, env: Env, done: nat, start: nat,
                  rejections: nat)
    returns (progress: Progress, messages: seq<Message>, actions: nat, t: nat, streak: nat,
             ghost executed: seq<Executed>, ghost at: seq<nat>)
    requires Read(said) == Awaiting(calls) && (done == 0 || done < maxActions)
    ensures actions == done + |executed| && (actions == 0 || actions <= maxActions)
    ensures progress != Ended ==> Underway(calls, said, env, start, rejections, executed, at, messages, t, streak)
    ensures progress == Ended ==> Concluded(calls, said, env, start, rejections, executed, at, messages, t)
    ensures progress == AllAnswered ==> Answered(messages) && |executed| == |calls|
    ensures progress == CutShort ==> |executed| < |calls| && (actions >= maxActions || env.expired(t))
    ensures progress == Lost ==> !env.active(t)
  {
    messages, actions, t, streak, executed, at := said, done, start, rejections, [], [];
    NoneYet(calls, said, env, start, rejections);
    var i := 0;
    while i < |calls|
      invariant 0 <= i == |executed| <= |calls| && actions == done + i && (actions == 0 || actions <= maxActions)
      invariant Underway(calls, said, env, start, rejections, executed, at, messages, t, streak)
    {
      progress, messages, actions, t, streak, executed, at :=
        AnswerNext(calls, said, messages, maxActions, env, start, rejections, executed, at, actions, i, t, streak);
      if progress != AllAnswered { return; }
      i := i + 1;
    }
    AllAre(calls, said);
    progress := AllAnswered;
  }

  datatype Gate = Refused | TimeUp | Open

  /** Ownership, deadline and turn interval, before the model is asked again; after a wait both are looked at
      anew, and the first turn never waits. */
  method BeforeTurn(first: bool, start: nat, env: Env) returns (gate: Gate, t: nat)
    ensures start < t
    ensures gate == Refused ==> !env.active(t)
    ensures gate == TimeUp ==> env.expired(t)
    ensures gate == Open ==> env.active(t - 1) && !env.expired(t)
    ensures gate == Open ==> t == if !first && env.paused(start + 2) then start + 5 else start + 2
  {
    t := start + 1;
    if !env.active(t) { return Refused, t; }
    t := t + 1;
    if env.expired(t) { return TimeUp, t; }
    if !first && env.paused(t) {
      t := t + 2;
      if !env.active(t) { return Refused, t; }
      t := t + 1;
      if env.expired(t) { return TimeUp, t; }
    }
    gate := Open;
  }

  /** The turn carries what the model said when asked at instant `at`: by a worker that owned the run before
      and after, before the deadline. */
  ghost predicate AskedAt(turn: Turn, at: nat, env: Env) {
    && at >= 2 && env.active(at - 2) && !env.expired(at - 1) && env.active(at + 1)
    && env.reply(at).Reply? && turn.response == Assistant(env.reply(at).calls)
  }

  /** Sends the transcript to the model and stores the turn, if the run is still owned afterwards. */
  method Ask(initial: seq<Message>, stored: seq<Turn>, request: seq<Message>, env: Env, start: nat)
    returns (exit: Exit, turns: seq<Turn>, messages: seq<Message>, calls: seq<ToolCall>, t: nat)
    requires Chain(initial, stored) && Answered(request) && initial <= request && Beyond(stored, request)
    requires start > 0 && env.active(start - 1) && !env.expired(start)
    ensures Chain(initial, turns) && stored <= turns && start + 1 <= t
    ensures exit != Finished ==> turns == stored && messages == request
    ensures exit == Failed ==> env.reply(t).Failure?
    ensures exit == OwnershipLost ==> !env.active(t)
    ensures exit == Finished ==>
              && turns == stored + [Turn(|stored| + 1, request, Assistant(calls))] && start + 2 < t
              && AskedAt(turns[|stored|], start + 1, env)
              && messages == request + [Assistant(calls)] && Read(messages) == Awaiting(calls)
  {
    turns, messages, calls := stored, request, [];
    t := start + 1;
    var reply := env.reply(t);
    if reply.Failure? { exit := Failed; return; }
    t := t + 1;
    if !env.active(t) { exit := OwnershipLost; return; }
    calls := reply.calls;
    ReadSnoc(request, Assistant(calls));
    ChainSnoc(initial, stored, Turn(|stored| + 1, request, Assistant(calls)));
    turns := stored + [Turn(|stored| + 1, request, Assistant(calls))];
    messages := request + [Assistant(calls)];
    t := t + 1;
    exit := Finished;
  }

  datatype Verdict = Abandon | Stop | GoOn

  /** What follows a stored turn: its calls are run, or a reply without calls is nudged once. */
  method Follow(calls: seq<ToolCall>, said: seq<Message>, maxActions: int, env: Env, done: nat, start: nat,
                rejections: nat, nudgedBefore: bool)
    returns (verdict: Verdict, messages: seq<Message>, actions: nat, t: nat, streak: nat, nudged: bool,
             ghost executed: seq<Executed>, ghost at: seq<nat>)
    requires Read(said) == Awaiting(calls) && (done == 0 || done < maxActions) && Monotonic(env)
    ensures start <= t && Seen(executed, at, calls, env, start, t)
    ensures actions == done + |executed| && (actions == 0 || actions <= maxActions)
    ensures verdict == GoOn ==>
              && Answered(messages) && (actions == 0 || actions < maxActions) && |executed| == |calls|
              && Unended(executed, rejections) && streak == Trail(executed, rejections)
              && messages == said + Following(calls)
              && nudged == (nudgedBefore || calls == []) && !(nudgedBefore && calls == [])
    ensures verdict == Stop ==>
              || (Unended(executed, rejections)
                  && ((calls == [] && nudgedBefore) || actions >= maxActions || env.expired(t)))
              || EndedBy(executed, rejections)
    ensures verdict == Abandon ==> !env.active(t) && Unended(executed, rejections)
  {
    messages, actions, t, streak, nudged, executed, at := said, done, start, rejections, nudgedBefore, [], [];
    if calls == [] {
      if nudged { return Stop, messages, actions, t, streak, nudged, executed, at; }
      ReadSnoc(messages, NUDGE);
      return GoOn, messages + [NUDGE], actions, t, streak, true, executed, at;
    }
    var progress;
    progress, messages, actions, t, streak, executed, at :=
      RunCalls(calls, messages, maxActions, env, actions, t, streak);
    if progress == Lost { return Abandon, messages, actions, t, streak, nudged, executed, at; }
    t := t + 1;
    verdict := if progress == Ended || actions >= maxActions || env.expired(t) then Stop else GoOn;
    assert env.expired(t - 1) ==> env.expired(t);
    assert calls[..|calls|] == calls;
  }

  /** The message calls `finish`. */
  predicate CallsFinish(m: Message) {
    m.Assistant? && exists k :: 0 <= k < |m.calls| && m.calls[k].name == "finish"
  }

  /** No message from `from` on does. */
  ghost predicate Unfinished(ms: seq<Message>, from: nat) {
    forall i :: from <= i < |ms| ==> !CallsFinish(ms[i])
  }

  /** Each turn was asked for at its own instant. */
  ghost predicate Spoken(turns: seq<Turn>, asked: seq<nat>, env: Env) {
    |asked| == |turns| && forall i :: 0 <= i < |turns| ==> AskedAt(turns[i], asked[i], env)
  }

  ghost predicate NobodyFinished(turns: seq<Turn>) {
    forall i :: 0 <= i < |turns| ==> !CallsFinish(turns[i].response)
  }

  /** A visit that goes on: nothing so far has ended it. */
  ghost predicate Going(initial: seq<Message>, env: Env, turns: seq<Turn>, asked: seq<nat>, executed: seq<Executed>,
                        messages: seq<Message>, streak: nat, nudged: bool) {
    && Chain(initial, turns) && Answered(messages) && initial <= messages && Beyond(turns, messages)
    && Spoken(turns, asked, env) && NobodyFinished(turns) && Unfinished(messages, |initial|)
    && Unended(executed, 0) && streak == Trail(executed, 0)
    && (nudged <==> exists i :: 0 <= i < |turns| && turns[i].response == Assistant([]))
  }

  lemma UnendedJoin(a: seq<Executed>, b: seq<Executed>, streak: nat)
    requires Unended(a, streak) && Unended(b, Trail(a, streak))
    ensures Unended(a + b, streak) && Trail(a + b, streak) == Trail(b, Trail(a, streak))
  {
    if b == [] {
      assert a + b == a;
    } else {
      assert a != [] ==> (a + b)[|a| - 1] == a[|a| - 1];
    }
  }

  lemma EndedJoin(a: seq<Executed>, b: seq<Executed>, streak: nat)
    requires Unended(a, streak) && EndedBy(b, Trail(a, streak))
    ensures EndedBy(a + b, streak)
  {
    UnendedJoin(a, b[..|b| - 1], streak);
    assert (a + b)[..|a + b| - 1] == a + b[..|b| - 1];
  }

  /** What follows a turn that goes on: the nudge, or the answers. */
  function Following(calls: seq<ToolCall>): seq<Message> {
    if calls == [] then [NUDGE] else Results(calls)
  }

  lemma NoneFinished(calls: seq<ToolCall>, done: seq<Executed>, seen: seq<nat>, env: Env, start: nat, end: nat,
                     streak: nat)
    requires Seen(done, seen, calls, env, start, end) && |done| == |calls| && Unended(done, streak)
    ensures !CallsFinish(Assistant(calls))
  {
    assert forall k :: 0 <= k < |calls| ==> done[k].call == calls[k];
  }

  lemma StillUnfinished(messages: seq<Message>, from: nat, calls: seq<ToolCall>)
    requires Unfinished(messages, from) && !CallsFinish(Assistant(calls))
    ensures Unfinished(messages + [Assistant(calls)] + Following(calls), from)
  {
    var now := messages + [Assistant(calls)] + Following(calls);
    forall i | from <= i < |now|
      ensures !CallsFinish(now[i])
    {
      assert i < |messages| ==> now[i] == messages[i];
    }
  }

  lemma TurnTaken(env: Env, turns: seq<Turn>, asked: seq<nat>, nudged: bool, turn: Turn, at: nat, calls: seq<ToolCall>)
    requires Spoken(turns, asked, env) && NobodyFinished(turns) && !CallsFinish(turn.response)
    requires turn.response == Assistant(calls) && AskedAt(turn, at, env)
    requires nudged <==> exists i :: 0 <= i < |turns| && turns[i].response == Assistant([])
    ensures Spoken(turns + [turn], asked + [at], env) && NobodyFinished(turns + [turn])
    ensures nudged || calls == []
            <==> exists i :: 0 <= i < |turns + [turn]| && (turns + [turn])[i].response == Assistant([])
  {
    assert (turns + [turn])[|turns|] == turn;
    assert forall i :: 0 <= i < |turns| ==> (turns + [turn])[i] == turns[i];
  }

  /** Once a turn's calls are all answered, or it is nudged, the visit goes on. */
  lemma GoesOn(initial: seq<Message>, env: Env, turns: seq<Turn>, asked: seq<nat>, executed: seq<Executed>,
               messages: seq<Message>, streak: nat, nudged: bool, turn: Turn, at: nat, calls: seq<ToolCall>,
               done: seq<Executed>)
    requires Going(initial, env, turns, asked, executed, messages, streak, nudged)
    requires turn == Turn(|turns| + 1, messages, Assistant(calls)) && AskedAt(turn, at, env)
    requires !CallsFinish(turn.response) && Unended(done, streak)
    requires Answered(messages + [turn.response] + Following(calls))
    ensures Going(initial, env, turns + [turn], asked + [at], executed + done,
                  messages + [turn.response] + Following(calls), Trail(done, streak), nudged || calls == [])
  {
    ChainSnoc(initial, turns, turn);
    UnendedJoin(executed, done, 0);
    TurnTaken(env, turns, asked, nudged, turn, at, calls);
    StillUnfinished(messages, |initial|, calls);
    assert Beyond(turns + [turn], messages + [turn.response] + Following(calls));
    assert initial <= messages + [turn.response] + Following(calls);
  }

  /** A visit is over: only its last turn may call `finish`, and only its last call may have ended it. */
  ghost predicate Over(initial: seq<Message>, env: Env, turns: seq<Turn>, asked: seq<nat>, executed: seq<Executed>) {
    && Chain(initial, turns) && Spoken(turns, asked, env)
    && (turns != [] ==> NobodyFinished(turns[..|turns| - 1]))
    && (Unended(executed, 0) || EndedBy(executed, 0))
  }

  lemma StillOver(initial: seq<Message>, env: Env, turns: seq<Turn>, asked: seq<nat>, executed: seq<Executed>,
                  messages: seq<Message>, streak: nat, nudged: bool)
    requires Going(initial, env, turns, asked, executed, messages, streak, nudged)
    ensures Over(initial, env, turns, asked, executed)
  {
  }

  lemma IsOver(initial: seq<Message>, env: Env, turns: seq<Turn>, asked: seq<nat>, executed: seq<Executed>,
               messages: seq<Message>, streak: nat, nudged: bool, turn: Turn, at: nat, done: seq<Executed>)
    requires Going(initial, env, turns, asked, executed, messages, streak, nudged)
    requires turn.seqNo == |turns| + 1 && turn.request == messages && turn.response.Assistant? && AskedAt(turn, at, env)
    requires Unended(done, streak) || EndedBy(done, streak)
    ensures Over(initial, env, turns + [turn], asked + [at], executed + done)
  {
    ChainSnoc(initial, turns, turn);
    if Unended(done, streak) {
      UnendedJoin(executed, done, 0);
    } else {
      EndedJoin(executed, done, 0);
    }
    assert (turns + [turn])[..|turns|] == turns;
  }

  /** Why a visit may finish: the deadline, the budget, a call that ended it, or a second reply without calls. */
  ghost predicate MayFinish(maxActions: int, env: Env, turns: seq<Turn>, actions: nat, executed: seq<Executed>,
                            end: nat) {
    || env.expired(end) || actions >= maxActions || EndedBy(executed, 0)
    || exists i :: 0 <= i < |turns| - 1 && turns[i].response == Assistant([]) == turns[|turns| - 1].response
  }

  /** The turn after which the visit stops. */
  lemma Stops(initial: seq<Message>, env: Env, turns: seq<Turn>, asked: seq<nat>, executed: seq<Executed>,
              messages: seq<Message>, streak: nat, nudged: bool, turn: Turn, done: seq<Executed>, maxActions: int,
              end: nat)
    requires Going(initial, env, turns, asked, executed, messages, streak, nudged)
    requires (turn.response == Assistant([]) && nudged) || |executed + done| >= maxActions || env.expired(end)
             || EndedBy(done, streak)
    ensures MayFinish(maxActions, env, turns + [turn], |executed + done|, executed + done, end)
  {
    if EndedBy(done, streak) {
      EndedJoin(executed, done, 0);
    }
    if turn.response == Assistant([]) && nudged {
      var i :| 0 <= i < |turns| && turns[i].response == Assistant([]);
      assert (turns + [turn])[i] == turns[i] && (turns + [turn])[|turns|] == turn;
    }
  }

  /** What becomes of a visit that went on and has stored one more turn, asked for at `at`. */
  ghost predicate Became(verdict: Verdict, initial: seq<Message>, maxActions: int, env: Env, turns: seq<Turn>,
                         asked: seq<nat>, executed: seq<Executed>, messages: seq<Message>, streak: nat, nudged: bool,
                         end: nat) {
    && (verdict == GoOn ==> Going(initial, env, turns, asked, executed, messages, streak, nudged))
    && (verdict != GoOn ==> Over(initial, env, turns, asked, executed))
    && (verdict == Stop ==> MayFinish(maxActions, env, turns, |executed|, executed, end))
    && (verdict == Abandon ==> !env.active(end))
  }

  /** The rest of a turn once it is stored. */
  method FinishTurn(initial: seq<Message>, ghost stored: seq<Turn>, ghost request: seq<Message>, calls: seq<ToolCall>,
                    said: seq<Message>, maxActions: int, env: Env, done: nat, start: nat, rejections: nat,
                    nudgedBefore: bool, ghost askedBefore: seq<nat>, ghost executedBefore: seq<Executed>, ghost at: nat)
    returns (verdict: Verdict, messages: seq<Message>, actions: nat, t: nat, streak: nat, nudged: bool,
             ghost executed: seq<Executed>)
    requires Going(initial, env, stored, askedBefore, executedBefore, request, rejections, nudgedBefore)
    requires AskedAt(Turn(|stored| + 1, request, Assistant(calls)), at, env)
    requires said == request + [Assistant(calls)] && Read(said) == Awaiting(calls)
    requires Monotonic(env) && done == |executedBefore| && (done == 0 || done < maxActions)
    ensures actions == |executed| && (actions == 0 || actions <= maxActions)
    ensures verdict == GoOn ==>
              && (actions == 0 || actions < maxActions)
              && (if actions == done then nudged && !nudgedBefore else actions > done && nudged == nudgedBefore)
    ensures Became(verdict, initial, maxActions, env, stored + [Turn(|stored| + 1, request, Assistant(calls))],
                   askedBefore + [at], executed, messages, streak, nudged, t)
  {
    ghost var turn := Turn(|stored| + 1, request, Assistant(calls));
    ghost var answered, seen;
    verdict, messages, actions, t, streak, nudged, answered, seen :=
      Follow(calls, said, maxActions, env, done, start, rejections, nudgedBefore);
    executed := executedBefore + answered;
    if verdict == GoOn {
      NoneFinished(calls, answered, seen, env, start, t, rejections);
      GoesOn(initial, env, stored, askedBefore, executedBefore, request, rejections, nudgedBefore, turn, at, calls,
             answered);
      return;
    }
    IsOver(initial, env, stored, askedBefore, executedBefore, request, rejections, nudgedBefore, turn, at, answered);
    if verdict == Stop {
      Stops(initial, env, stored, askedBefore, executedBefore, request, rejections, nudgedBefore, turn, answered,
            maxActions, t);
    }
  }

  /** Every earlier call is answered, and none was `finish`. */
  ghost predicate Sendable(initial: seq<Message>, ms: seq<Message>) {
    Answered(ms) && initial <= ms && Unfinished(ms, |initial|)
  }

  /** One turn of a visit that goes on: the model is asked, the turn stored, and its calls run. */
  method TakeTurn(initial: seq<Message>, stored: seq<Turn>, request: seq<Message>, maxActions: int, env: Env, done: nat,
                  start: nat, rejections: nat, nudgedBefore: bool, ghost askedBefore: seq<nat>,
                  ghost executedBefore: seq<Executed>)
    returns (verdict: Verdict, exit: Exit, turns: seq<Turn>, messages: seq<Message>, actions: nat, t: nat, streak: nat,
             nudged: bool, ghost asked: seq<nat>, ghost executed: seq<Executed>)
    requires Going(initial, env, stored, askedBefore, executedBefore, request, rejections, nudgedBefore)
    requires Monotonic(env) && done == |executedBefore| && (done == 0 || done < maxActions)
    requires start > 0 && env.active(start - 1) && !env.expired(start)
    ensures actions == |executed| && (actions == 0 || actions <= maxActions)
    ensures turns == stored || (|turns| == |stored| + 1 && turns[|stored|].request == request)
    ensures verdict == GoOn ==>
              && |turns| == |stored| + 1 && (actions == 0 || actions < maxActions)
              && (if actions == done then nudged && !nudgedBefore else actions > done && nudged == nudgedBefore)
    ensures verdict != Abandon ==> exit == Finished && turns != stored
    ensures verdict == Abandon ==>
              (exit == Failed && env.reply(t).Failure?) || (exit == OwnershipLost && !env.active(t))
    ensures verdict == GoOn ==> Going(initial, env, turns, asked, executed, messages, streak, nudged)
    ensures verdict != GoOn ==> Over(initial, env, turns, asked, executed)
    ensures verdict == Stop ==> MayFinish(maxActions, env, turns, |executed|, executed, t)
  {
    var calls;
    exit, turns, messages, calls, t := Ask(initial, stored, request, env, start);
    verdict, actions, streak, nudged := Abandon, done, rejections, nudgedBefore;
    asked, executed := askedBefore, executedBefore;
    if exit != Finished {
      StillOver(initial, env, stored, asked, executed, request, streak, nudged);
      return;
    }
    asked := asked + [start + 1];
    if env.expired(t) {
      IsOver(initial, env, stored, askedBefore, executed, request, streak, nudged, turns[|stored|], start + 1, []);
      assert executed + [] == executed;
      verdict := Stop;
      return;
    }
    verdict, messages, actions, t, streak, nudged, executed :=
      FinishTurn(initial, stored, request, calls, messages, maxActions, env, done, t, rejections, nudgedBefore,
                 askedBefore, executedBefore, start + 1);
    if verdict == Abandon { exit := OwnershipLost; }
  }

  lemma GoingIsSendable(initial: seq<Message>, env: Env, turns: seq<Turn>, asked: seq<nat>, executed: seq<Executed>,
                        messages: seq<Message>, streak: nat, nudged: bool)
    requires Going(initial, env, turns, asked, executed, messages, streak, nudged)
    ensures Sendable(initial, messages)
  {
  }

  lemma VisitBegins(initial: seq<Message>, env: Env)
    requires Answered(initial)
    ensures Going(initial, env, [], [], [], initial, 0, false) && Sendable(initial, initial)
  {
  }

  lemma OnlyLastFinishes(initial: seq<Message>, env: Env, turns: seq<Turn>, asked: seq<nat>, executed: seq<Executed>)
    requires Over(initial, env, turns, asked, executed)
    ensures forall i :: 0 <= i < |turns| - 1 ==> !CallsFinish(turns[i].response)
  {
    assert forall i :: 0 <= i < |turns| - 1 ==> turns[..|turns| - 1][i] == turns[i];
  }

  /** How a visit ends: stored turns carry what the model said, asked for in time by a worker that owned the run;
      the last request follows no call of `finish`, and only the last turn may make one; only the last call
      executed may have ended the visit; and the visit neither ends early nor goes on when it is over. */
  ghost predicate Final(initial: seq<Message>, maxActions: int, env: Env, exit: Exit, turns: seq<Turn>,
                        sent: seq<Message>, asked: seq<nat>, executed: seq<Executed>, end: nat) {
    && Chain(initial, turns) && Spoken(turns, asked, env) && Sendable(initial, sent)
    && (exit == Finished && turns != [] ==> turns[|turns| - 1].request == sent)
    && (forall i :: 0 <= i < |turns| - 1 ==> !CallsFinish(turns[i].response))
    && (Unended(executed, 0) || EndedBy(executed, 0))
    && (exit == OwnershipLost ==> !env.active(end)) && (exit == Failed ==> env.reply(end).Failure?)
    && (exit == Finished ==> MayFinish(maxActions, env, turns, |executed|, executed, end))
  }

  lemma EndsHere(initial: seq<Message>, maxActions: int, env: Env, exit: Exit, turns: seq<Turn>, sent: seq<Message>,
                 asked: seq<nat>, executed: seq<Executed>, end: nat)
    requires Over(initial, env, turns, asked, executed) && Sendable(initial, sent)
    requires exit == Finished && turns != [] ==> turns[|turns| - 1].request == sent
    requires (exit == OwnershipLost ==> !env.active(end)) && (exit == Failed ==> env.reply(end).Failure?)
    requires exit == Finished ==> MayFinish(maxActions, env, turns, |executed|, executed, end)
    ensures Final(initial, maxActions, env, exit, turns, sent, asked, executed, end)
  {
    OnlyLastFinishes(initial, env, turns, asked, executed);
  }

  /** The gate and then a turn, or the end of the visit. */
  method NextTurn(initial: seq<Message>, stored: seq<Turn>, request: seq<Message>, lastSent: seq<Message>,
                  maxActions: int, env: Env, done: nat, start: nat, rejections: nat, nudgedBefore: bool,
                  ghost askedBefore: seq<nat>, ghost executedBefore: seq<Executed>)
    returns (verdict: Verdict, exit: Exit, turns: seq<Turn>, messages: seq<Message>, sent: seq<Message>, actions: nat,
             t: nat, streak: nat, nudged: bool, ghost asked: seq<nat>, ghost executed: seq<Executed>)
    requires Going(initial, env, stored, askedBefore, executedBefore, request, rejections, nudgedBefore)
    requires Sendable(initial, lastSent) && (stored != [] ==> stored[|stored| - 1].request == lastSent)
    requires Monotonic(env) && done == |executedBefore| && (done == 0 || done < maxActions)
    ensures actions == |executed| && (actions == 0 || actions <= maxActions) && |turns| <= |stored| + 1
    ensures verdict == GoOn ==>
              && (actions == 0 || actions < maxActions)
              && (if actions == done then nudged && !nudgedBefore else actions > done && nudged == nudgedBefore)
              && turns != [] && turns[|turns| - 1].request == sent && Sendable(initial, sent)
              && Going(initial, env, turns, asked, executed, messages, streak, nudged)
    ensures verdict != GoOn ==> Final(initial, maxActions, env, exit, turns, sent, asked, executed, t)
  {
    var gate;
    gate, t := BeforeTurn(stored == [], start, env);
    if gate != Open {
      turns, messages, sent, actions, streak, nudged := stored, request, lastSent, done, rejections, nudgedBefore;
      asked, executed := askedBefore, executedBefore;
      verdict, exit := if gate == Refused then Abandon else Stop, if gate == Refused then OwnershipLost else Finished;
      StillOver(initial, env, turns, asked, executed, messages, streak, nudged);
    } else {
      sent := request;
      GoingIsSendable(initial, env, stored, askedBefore, executedBefore, request, rejections, nudgedBefore);
      verdict, exit, turns, messages, actions, t, streak, nudged, asked, executed :=
        TakeTurn(initial, stored, request, maxActions, env, done, t, rejections, nudgedBefore, askedBefore,
                 executedBefore);
    }
    if verdict != GoOn {
      EndsHere(initial, maxActions, env, exit, turns, sent, asked, executed, t);
    }
  }

  /** A whole visit. It terminates for any replies, takes at most max(1, maxActions) + 1 turns and
      max(0, maxActions) actions, and every request it sends has each earlier call answered; `sent` is
      the last one, whose turn may not have been stored. `asked` are the instants of the stored turns,
      `executed` all calls answered, and `end` the instant the visit ends. */
  method RunLoop(initial: seq<Message>, maxActions: int, env: Env)
    returns (exit: Exit, turns: seq<Turn>, actions: nat, sent: seq<Message>,
             ghost asked: seq<nat>, ghost executed: seq<Executed>, ghost end: nat)
    requires Answered(initial) && Monotonic(env)
    ensures |turns| <= (if maxActions > 1 then maxActions else 1) + 1
    ensures actions == |executed| <= if maxActions > 0 then maxActions else 0
    ensures Final(initial, maxActions, env, exit, turns, sent, asked, executed, end)
  {
    turns, actions, sent, asked, executed, end := [], 0, initial, [], [], 0;
    var messages, nudged, streak, t := initial, false, 0, 0;
    VisitBegins(initial, env);
    while true
      invariant Going(initial, env, turns, asked, executed, messages, streak, nudged) && Sendable(initial, sent)
      invariant turns != [] ==> turns[|turns| - 1].request == sent
      invariant actions == |executed| && (actions == 0 || actions < maxActions)
      invariant |turns| <= actions + (if nudged then 1 else 0)
      decreases if nudged then 0 else 1, maxActions - actions
    {
      var verdict;
      verdict, exit, turns, messages, sent, actions, t, streak, nudged, asked, executed :=
        NextTurn(initial, turns, messages, sent, maxActions, env, actions, t, streak, nudged, asked, executed);
      end := t;
      if verdict != GoOn { return; }
    }
  }
}
