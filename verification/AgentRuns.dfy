/** The ownership protocol of agent runs: reservation, recovery of stale runs, fenced handler
    flushes, failure and conditional completion, interleaved in any order by any number of workers.

    Every committed transaction is one `Step`. The worker that owns a run takes a completion in two
    steps, because the agent row it will write is read before the conditional update of the run. */
module AgentRuns {
  import opened Wrappers
  import opened Names

  type RunId = nat
  type AgentId = nat

  datatype RunStatus = Running | Completed | Failed | Interrupted
  datatype AgentStatus = Idle | Busy | Errored | Disabled

  /** `plan` stands for the intent and the prompt metadata, `stored` counts the turns of the transcript:
      the worker writes both without asking whether it still owns the run. */
  datatype Run = Run(agent: AgentId, persona: Name, status: RunStatus, startedAt: int,
                     finishedAt: Option<int>, turns: nat, actions: nat, plan: Option<nat>, stored: nat)

  datatype Agent = Agent(status: AgentStatus, enabled: bool, lastRunAt: Option<int>,
                         nextRunAt: Option<int>, failures: nat)

  /** What a flush publishes: a post, a comment, or any other row. */
  datatype Payload = PostRow | CommentRow | OtherRow

  /** The history of commits, in commit order. */
  datatype Event =
    | Reserved(run: RunId)
    | Published(run: RunId, payload: Payload)
    | Ended(run: RunId, status: RunStatus)

  /** The shared tables, the commit history, and the agent rows that completing workers have read
      but not yet written back (`finishing`, keyed by the run being completed). */
  datatype World = World(runs: map<RunId, Run>, agents: map<AgentId, Agent>, next: RunId,
                         log: seq<Event>, finishing: map<RunId, Agent>)

  datatype Step =
    | ReserveStep(agent: AgentId, persona: Name, now: int)
    | RecoverStep(run: RunId, now: int)
    | PlanStep(run: RunId, plan: nat)
    | TurnStep(run: RunId)
    | FlushStep(run: RunId, payload: Payload)
    | FailStep(run: RunId, now: int, turns: nat, actions: nat, strike: bool)
    | ReadStep(run: RunId)
    | CommitStep(run: RunId, now: int, delay: int, turns: nat, actions: nat)
    | EditStep(agent: AgentId, row: Agent)

  const FAILURE_BACKOFF_SECONDS := 300
  const CONSECUTIVE_FAILURE_DISABLE_THRESHOLD := 5
  const RESERVATION_ATTEMPTS := 5

  predicate IsRunning(w: World, r: RunId) {
    r in w.runs && w.runs[r].status == Running
  }

  predicate AgentHasRun(w: World, a: AgentId) {
    exists r :: r in w.runs && w.runs[r].status == Running && w.runs[r].agent == a
  }

  /** The two partial unique indexes refuse a second running row for the agent or the persona. */
  predicate Conflicts(w: World, a: AgentId, p: Name) {
    exists r :: r in w.runs && w.runs[r].status == Running && (w.runs[r].agent == a || w.runs[r].persona == p)
  }

  function End(w: World, r: RunId, row: Run, agents: map<AgentId, Agent>): World
  {
    w.(runs := w.runs[r := row], agents := agents, log := w.log + [Ended(r, row.status)])
  }

  function FailedAgent(row: Agent, now: int, strike: bool): Agent {
    if row.status != Busy then row
    else
      var backedOff := row.(status := Errored, lastRunAt := Some(now),
                            nextRunAt := if row.enabled then Some(now + FAILURE_BACKOFF_SECONDS) else row.nextRunAt);
      if !strike then backedOff
      else if row.failures + 1 >= CONSECUTIVE_FAILURE_DISABLE_THRESHOLD then
        backedOff.(failures := row.failures + 1, enabled := false, status := Disabled, nextRunAt := None)
      else backedOff.(failures := row.failures + 1)
  }

  /** Only the columns that differ from the row as read are written over the live row. */
  function CompletedAgent(live: Agent, read: Agent, now: int, delay: int): Agent {
    if read.status != Busy then live
    else
      live.(status := Idle, lastRunAt := Some(now),
            failures := if read.failures != 0 then 0 else live.failures,
            nextRunAt := if read.enabled then Some(now + delay)
                         else if read.nextRunAt.Some? then None else live.nextRunAt)
  }

  /** One committed step. A step whose conditional update matches no row changes no table. */
  function Apply(w: World, step: Step): World {
    match step
    case ReserveStep(a, p, now) =>
      if a !in w.agents || Conflicts(w, a, p) then w
      else w.(runs := w.runs[w.next := Run(a, p, Running, now, None, 0, 0, None, 0)],
              agents := w.agents[a := w.agents[a].(status := Busy)],
              next := w.next + 1,
              log := w.log + [Reserved(w.next)])
    case RecoverStep(r, now) =>
      if !IsRunning(w, r) then w
      else
        var a := w.runs[r].agent;
        End(w, r, w.runs[r].(status := Interrupted, finishedAt := Some(now)),
            if a in w.agents && w.agents[a].status == Busy
            then w.agents[a := w.agents[a].(status := Idle)] else w.agents)
    case PlanStep(r, plan) =>
      if r !in w.runs then w else w.(runs := w.runs[r := w.runs[r].(plan := Some(plan))])
    case TurnStep(r) =>
      if r !in w.runs then w else w.(runs := w.runs[r := w.runs[r].(stored := w.runs[r].stored + 1)])
    case FlushStep(r, payload) =>
      if !IsRunning(w, r) then w else w.(log := w.log + [Published(r, payload)])
    case FailStep(r, now, turns, actions, strike) =>
      if !IsRunning(w, r) then w
      else
        var a := w.runs[r].agent;
        End(w, r, w.runs[r].(status := Failed, finishedAt := Some(now), turns := turns, actions := actions),
            if a in w.agents then w.agents[a := FailedAgent(w.agents[a], now, strike)] else w.agents)
    case ReadStep(r) =>
      if !IsRunning(w, r) || w.runs[r].agent !in w.agents then w
      else w.(finishing := w.finishing[r := w.agents[w.runs[r].agent]])
    case CommitStep(r, now, delay, turns, actions) =>
      if r !in w.finishing then w
      else if !IsRunning(w, r) then w.(finishing := w.finishing - {r})
      else
        var a := w.runs[r].agent;
        var read := w.finishing[r];
        End(w, r, w.runs[r].(status := Completed, finishedAt := Some(now), turns := turns, actions := actions),
            if a in w.agents then w.agents[a := CompletedAgent(w.agents[a], read, now, delay)] else w.agents)
          .(finishing := w.finishing - {r})
    case EditStep(a, row) =>
      if a in w.agents then w.(agents := w.agents[a := row]) else w
  }

  /** A whole interleaving, oldest step first. */
  function Exec(w: World, steps: seq<Step>): World {
    if steps == [] then w else Apply(Exec(w, steps[..|steps| - 1]), steps[|steps| - 1])
  }

  lemma {:induction false} ExecConcat(w: World, a: seq<Step>, b: seq<Step>)
    ensures Exec(w, a + b) == Exec(Exec(w, a), b)
    decreases |b|
  {
    if b == [] {
      assert a + b == a;
    } else {
      ExecConcat(w, a, b[..|b| - 1]);
      assert (a + b)[..|a + b| - 1] == a + b[..|b| - 1];
    }
  }

  lemma ExecSnoc(w: World, a: seq<Step>, step: Step)
    ensures Exec(w, a + [step]) == Apply(Exec(w, a), step)
  {
    assert (a + [step])[..|a|] == a;
  }

  function Init(agents: map<AgentId, Agent>): World {
    World(map[], agents, 0, [], map[])
  }

  /// The inductive invariant

  ghost predicate UniqueOwners(w: World) {
    forall r, q :: r in w.runs && q in w.runs && r != q && w.runs[r].status == Running && w.runs[q].status == Running
                   ==> w.runs[r].agent != w.runs[q].agent && w.runs[r].persona != w.runs[q].persona
  }

  /** A run's events are one reservation, then publications, then at most one end. */
  ghost predicate OrderedLog(w: World) {
    && (forall i :: 0 <= i < |w.log| ==> w.log[i].run in w.runs)
    && (forall i :: 0 <= i < |w.log| && w.log[i].Ended? ==>
          w.log[i].status != Running && w.runs[w.log[i].run].status == w.log[i].status)
    && (forall i, j :: 0 <= i < j < |w.log| && w.log[i].Ended? ==> w.log[j].run != w.log[i].run)
    && (forall i, j :: 0 <= i < j < |w.log| && w.log[j].Reserved? ==> w.log[i].run != w.log[j].run)
  }

  ghost predicate Recorded(w: World) {
    forall r :: r in w.runs ==>
                  && r < w.next
                  && w.runs[r].agent in w.agents
                  && Reserved(r) in w.log
                  && (w.runs[r].status != Running ==> Ended(r, w.runs[r].status) in w.log)
  }

  ghost predicate FinishingKnown(w: World) {
    forall r :: r in w.finishing ==> r in w.runs
  }

  ghost predicate Inv(w: World) {
    UniqueOwners(w) && OrderedLog(w) && Recorded(w) && FinishingKnown(w)
  }

  /** The history may grow by an event of a run that is running, or that is new. */
  lemma AppendKeepsLog(w: World, v: World, e: Event)
    requires OrderedLog(w) && v.log == w.log + [e] && e.run in v.runs
    requires IsRunning(w, e.run) || e.run !in w.runs
    requires e.Reserved? ==> e.run !in w.runs
    requires e.Ended? ==> e.status != Running && v.runs[e.run].status == e.status
    requires forall r :: r in w.runs ==> r in v.runs && (r != e.run ==> v.runs[r].status == w.runs[r].status)
    ensures OrderedLog(v)
  {
    forall i | 0 <= i < |w.log|
      ensures v.log[i] == w.log[i] && w.log[i].run in w.runs
      ensures w.log[i].Ended? ==> w.log[i].run != e.run
    {
    }
  }

  lemma EndKeepsRecord(w: World, r: RunId, row: Run, agents: map<AgentId, Agent>)
    requires Recorded(w) && r in w.runs && row.agent == w.runs[r].agent && agents.Keys == w.agents.Keys
    ensures Recorded(End(w, r, row, agents))
  {
    var v := End(w, r, row, agents);
    assert v.log[|w.log|] in v.log;
    assert forall e :: e in w.log ==> e in v.log;
  }

  lemma EndKeepsOwners(w: World, r: RunId, row: Run, agents: map<AgentId, Agent>)
    requires UniqueOwners(w) && FinishingKnown(w) && row.status != Running
    ensures UniqueOwners(End(w, r, row, agents)) && FinishingKnown(End(w, r, row, agents))
  {
  }

  lemma EndKeepsLog(w: World, r: RunId, row: Run, agents: map<AgentId, Agent>)
    requires OrderedLog(w) && IsRunning(w, r) && row.status != Running
    ensures OrderedLog(End(w, r, row, agents))
  {
    AppendKeepsLog(w, End(w, r, row, agents), Ended(r, row.status));
  }

  lemma EndInv(w: World, r: RunId, row: Run, agents: map<AgentId, Agent>)
    requires Inv(w) && IsRunning(w, r) && row.status != Running
    requires row.agent == w.runs[r].agent && agents.Keys == w.agents.Keys
    ensures Inv(End(w, r, row, agents))
  {
    EndKeepsOwners(w, r, row, agents);
    EndKeepsLog(w, r, row, agents);
    EndKeepsRecord(w, r, row, agents);
  }

  lemma ReserveKeepsRecord(w: World, a: AgentId, p: Name, now: int)
    requires Recorded(w)
    ensures Recorded(Apply(w, ReserveStep(a, p, now)))
  {
    var v := Apply(w, ReserveStep(a, p, now));
    if v != w {
      assert v.log[|w.log|] in v.log;
      assert forall e :: e in w.log ==> e in v.log;
    }
  }

  lemma ReserveInv(w: World, a: AgentId, p: Name, now: int)
    requires Inv(w)
    ensures Inv(Apply(w, ReserveStep(a, p, now)))
  {
    var v := Apply(w, ReserveStep(a, p, now));
    ReserveKeepsRecord(w, a, p, now);
    if v != w {
      assert w.next !in w.runs;
      AppendKeepsLog(w, v, Reserved(w.next));
    }
  }

  lemma FlushInv(w: World, r: RunId, payload: Payload)
    requires Inv(w)
    ensures Inv(Apply(w, FlushStep(r, payload)))
  {
    var v := Apply(w, FlushStep(r, payload));
    if v != w {
      assert forall e :: e in w.log ==> e in v.log;
      AppendKeepsLog(w, v, Published(r, payload));
    }
  }

  ghost predicate SameOwners(v: World, w: World) {
    && v.runs.Keys == w.runs.Keys
    && forall r :: r in w.runs ==> v.runs[r].agent == w.runs[r].agent && v.runs[r].persona == w.runs[r].persona
                                   && v.runs[r].status == w.runs[r].status
  }

  /** Steps that reserve, end and publish nothing. */
  lemma QuietInv(w: World, v: World)
    requires Inv(w) && FinishingKnown(v)
    requires SameOwners(v, w) && v.next == w.next && v.log == w.log && v.agents.Keys == w.agents.Keys
    ensures Inv(v)
  {
  }

  lemma EndingInv(w: World, step: Step)
    requires Inv(w) && (step.RecoverStep? || step.FailStep? || step.CommitStep?)
    requires IsRunning(w, step.run) && (step.CommitStep? ==> step.run in w.finishing)
    ensures Inv(Apply(w, step))
  {
    var v, r := Apply(w, step), step.run;
    var ended := End(w, r, v.runs[r], v.agents);
    EndInv(w, r, v.runs[r], v.agents);
    QuietInv(ended, v);
  }

  lemma PlanMovesNoOwner(w: World, step: Step)
    requires step.PlanStep? || step.TurnStep?
    ensures var v := Apply(w, step);
            SameOwners(v, w) && v == World(v.runs, w.agents, w.next, w.log, w.finishing)
  {
  }

  lemma PlanInv(w: World, step: Step)
    requires Inv(w) && (step.PlanStep? || step.TurnStep?)
    ensures Inv(Apply(w, step))
  {
    PlanMovesNoOwner(w, step);
    QuietInv(w, Apply(w, step));
  }

  lemma QuietStepInv(w: World, step: Step)
    requires Inv(w) && !step.PlanStep? && !step.TurnStep? && Apply(w, step).log == w.log
    ensures Inv(Apply(w, step))
  {
    QuietInv(w, Apply(w, step));
  }

  lemma StepInv(w: World, step: Step)
    requires Inv(w)
    ensures Inv(Apply(w, step))
  {
    if step.ReserveStep? {
      ReserveInv(w, step.agent, step.persona, step.now);
    } else if step.FlushStep? {
      FlushInv(w, step.run, step.payload);
    } else if step.PlanStep? || step.TurnStep? {
      PlanInv(w, step);
    } else if Apply(w, step).log == w.log {
      QuietStepInv(w, step);
    } else {
      EndingInv(w, step);
    }
  }

  lemma {:induction false} ExecInv(w: World, steps: seq<Step>)
    requires Inv(w)
    ensures Inv(Exec(w, steps))
  {
    if steps == [] {
    } else {
      ExecInv(w, steps[..|steps| - 1]);
      StepInv(Exec(w, steps[..|steps| - 1]), steps[|steps| - 1]);
    }
  }

  ghost predicate Terminal(w: World, r: RunId) {
    r in w.runs && w.runs[r].status != Running
  }

  /** Steps taken by the worker that reserved run `r`. */
  predicate ByOwner(step: Step, r: RunId) {
    match step
    case PlanStep(q, _) => q == r
    case TurnStep(q) => q == r
    case FlushStep(q, _) => q == r
    case FailStep(q, _, _, _, _) => q == r
    case ReadStep(q) => q == r
    case CommitStep(q, _, _, _, _) => q == r
    case ReserveStep(_, _, _) => false
    case RecoverStep(_, _) => false
    case EditStep(_, _) => false
  }

  /// The operations of one worker, with the other workers' commits in between

  datatype Reservation = Granted(run: RunId) | AlreadyRunning | NoPersona | Exhausted

  function Recoveries(ids: seq<RunId>, now: int): seq<Step> {
    seq(|ids|, i requires 0 <= i < |ids| => RecoverStep(ids[i], now))
  }

  /** Exactly the listed runs that were still running are interrupted. */
  ghost predicate RunsRecovered(w: World, v: World, ids: seq<RunId>, now: int) {
    && v.runs.Keys == w.runs.Keys
    && forall r :: r in w.runs ==>
                     v.runs[r] == if r in ids && w.runs[r].status == Running
                                  then w.runs[r].(status := Interrupted, finishedAt := Some(now)) else w.runs[r]
  }

  /** One of the listed runs was running, and the agent's. */
  ghost predicate FreedBy(w: World, ids: seq<RunId>, b: AgentId) {
    exists r :: r in ids && r in w.runs && w.runs[r].status == Running && w.runs[r].agent == b
  }

  /** Exactly the busy agents of such runs are set free. */
  ghost predicate AgentsFreed(w: World, v: World, ids: seq<RunId>) {
    && v.agents.Keys == w.agents.Keys
    && forall b :: b in w.agents ==>
                     v.agents[b] == if w.agents[b].status == Busy && FreedBy(w, ids, b)
                                    then w.agents[b].(status := Idle) else w.agents[b]
  }

  lemma OneMoreRecovered(w: World, v: World, ids: seq<RunId>, last: RunId, now: int)
    requires RunsRecovered(w, v, ids, now)
    ensures RunsRecovered(w, Apply(v, RecoverStep(last, now)), ids + [last], now)
  {
    assert forall r :: r in ids + [last] <==> r in ids || r == last;
  }

  lemma FreedByOneMore(w: World, ids: seq<RunId>, last: RunId, b: AgentId)
    ensures FreedBy(w, ids + [last], b)
            <==> FreedBy(w, ids, b) || (last in w.runs && w.runs[last].status == Running && w.runs[last].agent == b)
  {
    assert forall r :: r in ids + [last] <==> r in ids || r == last;
  }

  lemma OneMoreFreed(w: World, v: World, ids: seq<RunId>, last: RunId, now: int)
    requires RunsRecovered(w, v, ids, now) && AgentsFreed(w, v, ids)
    ensures AgentsFreed(w, Apply(v, RecoverStep(last, now)), ids + [last])
  {
    var next := Apply(v, RecoverStep(last, now));
    assert last in ids && last in w.runs && w.runs[last].status == Running ==> FreedBy(w, ids, w.runs[last].agent);
    forall b | b in w.agents
      ensures next.agents[b] == if w.agents[b].status == Busy && FreedBy(w, ids + [last], b)
                                then w.agents[b].(status := Idle) else w.agents[b]
    {
      FreedByOneMore(w, ids, last, b);
    }
  }

  lemma {:induction false} RecoveriesMean(w: World, ids: seq<RunId>, now: int)
    ensures var v := Exec(w, Recoveries(ids, now)); RunsRecovered(w, v, ids, now) && AgentsFreed(w, v, ids)
  {
    if ids == [] {
    } else {
      var front, last := ids[..|ids| - 1], ids[|ids| - 1];
      RecoveriesMean(w, front, now);
      assert Recoveries(ids, now)[..|ids| - 1] == Recoveries(front, now);
      assert ids == front + [last];
      OneMoreRecovered(w, Exec(w, Recoveries(front, now)), front, last, now);
      OneMoreFreed(w, Exec(w, Recoveries(front, now)), front, last, now);
    }
  }

  /** Everything the other workers committed before attempt `k`'s insert. */
  function Others(env: seq<seq<Step>>, k: nat): seq<Step>
    requires k <= |env|
  {
    if k == 0 then [] else Others(env, k - 1) + env[k - 1]
  }

  /** This worker's own step, if its reservation was granted on its last attempt. */
  function Inserted(result: Reservation, a: AgentId, picks: seq<Option<Name>>, attempts: nat, now: int): seq<Step>
    requires attempts <= |picks| && (result.Granted? ==> 0 < attempts && picks[attempts - 1].Some?)
  {
    if result.Granted? then [ReserveStep(a, picks[attempts - 1].value, now)] else []
  }

  /** `w` is what `k` attempts' worth of other commits, and then this worker's own, made of `start`. */
  ghost predicate Attempted(start: World, env: seq<seq<Step>>, k: nat, own: seq<Step>, w: World)
    requires k <= |env|
  {
    w == Exec(start, Others(env, k) + own)
  }

  lemma NoAttempt(w: World, env: seq<seq<Step>>)
    ensures Attempted(w, env, 0, [], w)
  {
  }

  lemma OthersAttempt(start: World, env: seq<seq<Step>>, k: nat, w: World)
    requires k < |env| && Attempted(start, env, k, [], w)
    ensures Attempted(start, env, k + 1, [], Exec(w, env[k]))
  {
    assert Others(env, k) + [] == Others(env, k);
    assert Others(env, k + 1) + [] == Others(env, k + 1);
    ExecConcat(start, Others(env, k), env[k]);
  }

  lemma OwnAttempt(start: World, env: seq<seq<Step>>, k: nat, own: Step, w: World)
    requires k <= |env| && Attempted(start, env, k, [], w)
    ensures Attempted(start, env, k, [own], Apply(w, own))
  {
    assert Others(env, k) + [] == Others(env, k);
    ExecSnoc(start, Others(env, k), own);
  }

  class RunStore {
    var runs: map<RunId, Run>
    var agents: map<AgentId, Agent>
    var next: RunId
    var log: seq<Event>
    var finishing: map<RunId, Agent>

    function View(): World
      reads this
    {
      World(runs, agents, next, log, finishing)
    }

    constructor (rows: map<AgentId, Agent>)
      ensures View() == Init(rows)
    {
      runs, agents, next, log, finishing := map[], rows, 0, [], map[];
    }

    /** Whatever the other workers commit before this worker's next statement. */
    method Interfere(steps: seq<Step>)
      modifies this
      ensures View() == Exec(old(View()), steps)
    {
      var w := Exec(View(), steps);
      runs, agents, next, log, finishing := w.runs, w.agents, w.next, w.log, w.finishing;
    }

    /** A run of the agent that was running in `before` no longer is. */
    ghost predicate Interrupts(before: map<RunId, Run>, b: AgentId)
      reads this
    {
      exists r :: r in runs && r in before && before[r].status == Running && before[r].agent == b
                  && runs[r].status != Running
    }

    /** Marks the agent's stuck runs 'interrupted' and reports whether a live run remains. */
    method RecoverStaleRuns(a: AgentId, now: int, maxRunSeconds: int, env: seq<Step>)
      returns (live: bool, ghost recovered: seq<RunId>)
      modifies this
      ensures View() == Exec(old(View()), env + Recoveries(recovered, now))
      ensures runs.Keys == Exec(old(View()), env).runs.Keys && agents.Keys == Exec(old(View()), env).agents.Keys
      ensures forall r :: r in old(runs) && old(runs)[r].agent == a && old(runs)[r].status == Running
                          && old(runs)[r].startedAt < now - (maxRunSeconds + 60) ==>
                            r in runs && runs[r].status != Running
      ensures forall r :: r in runs && r in old(runs) && old(runs)[r].startedAt >= now - (maxRunSeconds + 60) ==>
                            runs[r] == Exec(old(View()), env).runs[r]
      ensures forall r :: r in runs
                          && (r in old(runs) ==> old(runs)[r].agent != a || old(runs)[r].status != Running) ==>
                            runs[r] == Exec(old(View()), env).runs[r]
      ensures forall r :: r in runs && Exec(old(View()), env).runs[r].status == Running && runs[r].status != Running ==>
                            runs[r] == Exec(old(View()), env).runs[r].(status := Interrupted, finishedAt := Some(now))
      ensures forall b :: b in agents ==>
                            var was := Exec(old(View()), env).agents[b];
                            agents[b] == if was.status == Busy && Interrupts(Exec(old(View()), env).runs, b)
                                         then was.(status := Idle) else was
      ensures live <==> exists r :: r in runs && runs[r].status == Running && runs[r].agent == a
    {
      var stuck := set r | r in runs && runs[r].status == Running && runs[r].agent == a &&
                           runs[r].startedAt < now - (maxRunSeconds + 60);
      ghost var before := View();
      AllRunsKept(before, env);
      Interfere(env);
      ghost var mid := View();
      recovered := InterruptEach(stuck, now);
      ExecConcat(before, env, Recoveries(recovered, now));
      RecoveriesMean(mid, recovered, now);
      live := AgentHasRun(View(), a);
    }

    /** Each of the runs is interrupted on condition that it still runs. */
    method InterruptEach(stuck: set<RunId>, now: int) returns (ghost recovered: seq<RunId>)
      modifies this
      ensures forall r :: r in recovered <==> r in stuck
      ensures View() == Exec(old(View()), Recoveries(recovered, now))
    {
      var left := stuck;
      recovered := [];
      while left != {}
        invariant left <= stuck
        invariant forall r :: r in recovered <==> r in stuck - left
        invariant View() == Exec(old(View()), Recoveries(recovered, now))
        decreases left
      {
        var r :| r in left;
        ghost var before := View();
        if r in runs && runs[r].status == Running {
          var owner := runs[r].agent;
          runs := runs[r := runs[r].(status := Interrupted, finishedAt := Some(now))];
          log := log + [Ended(r, Interrupted)];
          if owner in agents && agents[owner].status == Busy {
            agents := agents[owner := agents[owner].(status := Idle)];
          }
        }
        assert View() == Apply(before, RecoverStep(r, now));
        ghost var done := Recoveries(recovered, now);
        assert Recoveries(recovered + [r], now) == done + [RecoverStep(r, now)];
        ExecSnoc(old(View()), done, RecoverStep(r, now));
        recovered := recovered + [r];
        left := left - {r};
      }
    }

    /** One insert of a running row; the unique indexes may refuse it. */
    method TryInsert(a: AgentId, p: Name, now: int) returns (run: Option<RunId>)
      requires a in agents
      modifies this
      ensures View() == Apply(old(View()), ReserveStep(a, p, now))
      ensures run.None? <==> exists r :: r in old(runs) && old(runs)[r].status == Running
                                         && (old(runs)[r].agent == a || old(runs)[r].persona == p)
      ensures run.None? ==> View() == old(View())
      ensures run.Some? ==> run.value == old(next)
                            && runs == old(runs)[old(next) := Run(a, p, Running, now, None, 0, 0, None, 0)]
                            && agents == old(agents)[a := old(agents)[a].(status := Busy)]
    {
      if Conflicts(View(), a, p) {
        return None;
      }
      run := Some(next);
      runs := runs[next := Run(a, p, Running, now, None, 0, 0, None, 0)];
      agents := agents[a := agents[a].(status := Busy)];
      log := log + [Reserved(next)];
      next := next + 1;
    }

    /** One attempt of a reservation that began in `start`: the other workers' commits, then one insert. */
    method Attempt(a: AgentId, p: Name, env: seq<seq<Step>>, attempt: nat, now: int, ghost start: World)
      returns (run: Option<RunId>)
      requires a in agents && attempt < |env| && Attempted(start, env, attempt, [], View())
      modifies this
      ensures a in agents
      ensures Attempted(start, env, attempt + 1, if run.Some? then [ReserveStep(a, p, now)] else [], View())
      ensures run.Some? ==> && IsRunning(View(), run.value) && View().runs[run.value].agent == a
                            && View().runs[run.value].persona == p
      ensures run.None? ==> Conflicts(View(), a, p)
    {
      AgentsKept(View(), env[attempt], a);
      OthersAttempt(start, env, attempt, View());
      Interfere(env[attempt]);
      OwnAttempt(start, env, attempt + 1, ReserveStep(a, p, now), View());
      run := TryInsert(a, p, now);
    }

    /** Up to five attempts to insert a running row for a picked persona. `picks[i]` is what persona
        selection returns on attempt `i` (nothing when the pool is empty) and `env[i]` what others
        commit between that attempt's check and its insert. */
    method ReservePersonaRun(a: AgentId, picks: seq<Option<Name>>, env: seq<seq<Step>>, now: int)
      returns (result: Reservation, ghost attempts: nat)
      requires a in agents && |picks| == |env| == 5
      modifies this
      ensures attempts <= 5
      ensures result.Granted? ==> 0 < attempts && picks[attempts - 1].Some?
      ensures Attempted(old(View()), env, attempts, Inserted(result, a, picks, attempts, now), View())
      ensures result.Granted? ==> IsRunning(View(), result.run) && View().runs[result.run].agent == a
                                  && View().runs[result.run].persona == picks[attempts - 1].value
      ensures result.AlreadyRunning? ==> exists r :: r in runs && runs[r].status == Running && runs[r].agent == a
      ensures result.NoPersona? ==> attempts < 5 && picks[attempts].None?
      ensures result.Exhausted? ==>
                attempts == 5 && forall r :: r in runs && runs[r].status == Running ==> runs[r].agent != a
    {
      attempts := 0;
      NoAttempt(View(), env);
      var attempt := 0;
      while attempt < RESERVATION_ATTEMPTS
        invariant 0 <= attempt == attempts <= RESERVATION_ATTEMPTS
        invariant a in agents
        invariant Attempted(old(View()), env, attempt, [], View())
        invariant attempt > 0 ==> !AgentHasRun(View(), a)
      {
        if AgentHasRun(View(), a) { return AlreadyRunning, attempts; }
        if picks[attempt].None? { return NoPersona, attempts; }
        var p := picks[attempt].value;
        var run := Attempt(a, p, env, attempt, now, old(View()));
        attempt, attempts := attempt + 1, attempts + 1;
        if run.Some? { return Granted(run.value), attempts; }
        if AgentHasRun(View(), a) { return AlreadyRunning, attempts; }
      }
      result := Exhausted;
    }

    /** The visit's plan is written whoever owns the run by now; only then does the worker ask whether the
        run is still its own. */
    method CommitPlan(run: RunId, plan: nat, env: seq<Step>) returns (active: bool)
      requires run in runs
      modifies this
      ensures View() == Exec(old(View()), [PlanStep(run, plan)] + env)
      ensures View() == Exec(old(View()).(runs := old(runs)[run := old(runs)[run].(plan := Some(plan))]), env)
      ensures active <==> run in runs && runs[run].status == Running
    {
      runs := runs[run := runs[run].(plan := Some(plan))];
      ExecSnoc(old(View()), [], PlanStep(run, plan));
      assert [] + [PlanStep(run, plan)] == [PlanStep(run, plan)];
      ExecConcat(old(View()), [PlanStep(run, plan)], env);
      Interfere(env);
      active := IsRunning(View(), run);
    }

    /** A turn is stored if the run was still owned when the worker last asked, whatever came since. */
    method StoreTurn(run: RunId, env: seq<Step>) returns (active: bool)
      requires run in runs
      modifies this
      ensures active <==> old(runs)[run].status == Running
      ensures View() == if active then Exec(old(View()), env + [TurnStep(run)]) else old(View())
      ensures active ==>
                var before := Exec(old(View()), env).runs;
                run in before && runs == before[run := before[run].(stored := before[run].stored + 1)]
    {
      active := IsRunning(View(), run);
      if active {
        ExecSnoc(View(), env, TurnStep(run));
        RunsKept(View(), env, run);
        Interfere(env);
        runs := runs[run := runs[run].(stored := runs[run].stored + 1)];
      }
    }

    /** A failing worker closes its run only if it still owns it. */
    method Fail(run: RunId, now: int, turns: nat, actions: nat, strike: bool) returns (closed: bool)
      modifies this
      ensures View() == Apply(old(View()), FailStep(run, now, turns, actions, strike))
      ensures closed <==> run in old(runs) && old(runs)[run].status == Running
      ensures !closed ==> View() == old(View())
      ensures closed ==> runs == old(runs)[run := old(runs)[run].(status := Failed, finishedAt := Some(now),
                                                                  turns := turns, actions := actions)]
      ensures agents.Keys == old(agents).Keys
      ensures forall b :: b in agents && (!closed || b != old(runs)[run].agent || old(agents)[b].status != Busy) ==>
                            agents[b] == old(agents)[b]
      ensures closed && old(runs)[run].agent in agents && old(agents)[old(runs)[run].agent].status == Busy ==>
                var was, row := old(agents)[old(runs)[run].agent], agents[old(runs)[run].agent];
                && row.lastRunAt == Some(now) && row.failures == was.failures + (if strike then 1 else 0)
                && if strike && was.failures + 1 >= 5 then row.status == Disabled && !row.enabled && row.nextRunAt.None?
                   else row.status == Errored && row.enabled == was.enabled
                        && row.nextRunAt == if was.enabled then Some(now + 300) else was.nextRunAt
    {
      if run !in runs || runs[run].status != Running {
        return false;
      }
      var a := runs[run].agent;
      runs := runs[run := runs[run].(status := Failed, finishedAt := Some(now), turns := turns, actions := actions)];
      log := log + [Ended(run, Failed)];
      if a in agents && agents[a].status == Busy {
        var row := agents[a].(status := Errored, lastRunAt := Some(now));
        if row.enabled {
          row := row.(nextRunAt := Some(now + FAILURE_BACKOFF_SECONDS));
        }
        if strike {
          row := row.(failures := row.failures + 1);
          if row.failures >= CONSECUTIVE_FAILURE_DISABLE_THRESHOLD {
            row := row.(enabled := false, status := Disabled, nextRunAt := None);
          }
        }
        agents := agents[a := row];
      }
      return true;
    }

    /** The end of a visit: read the run and the agent, then update both if the run is still owned. */
    method Complete(run: RunId, now: int, delay: int, turns: nat, actions: nat, env: seq<Step>)
      returns (completed: bool)
      requires run in runs && runs[run].agent in agents
      requires forall s :: s in env ==> !ByOwner(s, run)
      modifies this
      ensures IsRunning(old(View()), run) ==>
                View() == Exec(old(View()), [ReadStep(run)] + env + [CommitStep(run, now, delay, turns, actions)])
      ensures !IsRunning(old(View()), run) ==> View() == old(View()) && !completed
      ensures var before := Exec(old(View()), [ReadStep(run)] + env);
              completed
              <==> old(runs)[run].status == Running && run in before.runs && before.runs[run].status == Running
      ensures completed ==>
                var before := Exec(old(View()), [ReadStep(run)] + env).runs;
                runs == before[run := before[run].(status := Completed, finishedAt := Some(now),
                                                   turns := turns, actions := actions)]
      ensures completed ==>
                var before := Exec(old(View()), [ReadStep(run)] + env);
                var a, was := before.runs[run].agent, old(agents)[old(runs)[run].agent];
                && (forall b :: b in before.agents && (b != a || was.status != Busy) ==>
                      b in agents && agents[b] == before.agents[b])
                && (a in before.agents && before.agents[a] == was && was.status == Busy ==>
                      a in agents && agents[a] == was.(status := Idle, lastRunAt := Some(now), failures := 0,
                                                       nextRunAt := if was.enabled then Some(now + delay) else None))
    {
      if runs[run].status != Running {
        return false;
      }
      var read := agents[runs[run].agent];
      finishing := finishing[run := read];
      assert View() == Exec(old(View()), [ReadStep(run)]) by {
        assert [ReadStep(run)][..0] == [];
      }
      Interfere(env);
      ghost var before := [ReadStep(run)] + env;
      ExecConcat(old(View()), [ReadStep(run)], env);
      ReadStays(Apply(old(View()), ReadStep(run)), env, run, read);
      ExecSnoc(old(View()), before, CommitStep(run, now, delay, turns, actions));
      finishing := finishing - {run};
      if run !in runs || runs[run].status != Running {
        return false;
      }
      var a := runs[run].agent;
      runs := runs[run := runs[run].(status := Completed, finishedAt := Some(now), turns := turns, actions := actions)];
      log := log + [Ended(run, Completed)];
      if a in agents && read.status == Busy {
        var row := agents[a].(status := Idle, lastRunAt := Some(now));
        if read.failures != 0 {
          row := row.(failures := 0);
        }
        if read.enabled {
          row := row.(nextRunAt := Some(now + delay));
        } else if read.nextRunAt.Some? {
          row := row.(nextRunAt := None);
        }
        agents := agents[a := row];
      }
      return true;
    }
  }

  lemma StepKeepsAgents(w: World, step: Step, a: AgentId)
    ensures a in w.agents ==> a in Apply(w, step).agents
  {
  }

  lemma {:induction false} AgentsKept(w: World, steps: seq<Step>, a: AgentId)
    requires a in w.agents
    ensures a in Exec(w, steps).agents
  {
    if steps == [] {
    } else {
      AgentsKept(w, steps[..|steps| - 1], a);
      StepKeepsAgents(Exec(w, steps[..|steps| - 1]), steps[|steps| - 1], a);
    }
  }

  lemma {:induction false} RunsKept(w: World, steps: seq<Step>, r: RunId)
    requires r in w.runs
    ensures r in Exec(w, steps).runs
  {
    if steps == [] {
    } else {
      RunsKept(w, steps[..|steps| - 1], r);
      RunKept(Exec(w, steps[..|steps| - 1]), steps[|steps| - 1], r);
    }
  }

  lemma AllRunsKept(w: World, steps: seq<Step>)
    ensures forall r :: r in w.runs ==> r in Exec(w, steps).runs
  {
    forall r | r in w.runs
      ensures r in Exec(w, steps).runs
    {
      RunsKept(w, steps, r);
    }
  }

  lemma RunKept(w: World, step: Step, r: RunId)
    requires r in w.runs
    ensures r in Apply(w, step).runs
  {
  }

  lemma {:induction false} ReadStays(w: World, steps: seq<Step>, r: RunId, row: Agent)
    requires r in w.finishing && w.finishing[r] == row
    requires forall s :: s in steps ==> !ByOwner(s, r)
    ensures r in Exec(w, steps).finishing && Exec(w, steps).finishing[r] == row
  {
    if steps == [] {
    } else {
      var front := steps[..|steps| - 1];
      assert forall s :: s in front ==> s in steps;
      ReadStays(w, front, r, row);
      assert steps[|steps| - 1] in steps;
    }
  }
}
