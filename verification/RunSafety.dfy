/** What the ownership protocol promises over every interleaving: one running run per agent and persona,
    frozen rows of ended runs, publications only by owners, late workers that nobody notices, and agent rows
    that say the truth. */
module RunSafety {
  import opened Wrappers
  import opened Names
  import opened AgentRuns

  /** Over all runs of the system, an agent and a persona each have at most one running run. */
  lemma {:induction false} AtMostOneRunning(agents: map<AgentId, Agent>, steps: seq<Step>, r: RunId, q: RunId)
    requires var w := Exec(Init(agents), steps); IsRunning(w, r) && IsRunning(w, q)
    requires var w := Exec(Init(agents), steps);
             w.runs[r].agent == w.runs[q].agent || w.runs[r].persona == w.runs[q].persona
    ensures r == q
  {
    ExecInv(Init(agents), steps);
  }

  /** The row without the columns that its worker writes unfenced. */
  function Unplanned(row: Run): Run {
    row.(plan := None, stored := 0)
  }

  /** What a step makes of the row of a run `r` that has ended. */
  function ReplannedBy(row: Run, step: Step, r: RunId): Run {
    match step
    case PlanStep(q, plan) => if q == r then row.(plan := Some(plan)) else row
    case TurnStep(q) => if q == r then row.(stored := row.stored + 1) else row
    case _ => row
  }

  /** What the unfenced commits among the steps make of it. */
  function Replanned(row: Run, steps: seq<Step>, r: RunId): Run {
    if steps == [] then row
    else ReplannedBy(Replanned(row, steps[..|steps| - 1], r), steps[|steps| - 1], r)
  }

  /** They write nothing else, and without them the row stays. */
  lemma {:induction false} ReplannedOnly(row: Run, steps: seq<Step>, r: RunId)
    ensures Unplanned(Replanned(row, steps, r)) == Unplanned(row)
    ensures (forall s :: s in steps && (s.PlanStep? || s.TurnStep?) ==> s.run != r) ==> Replanned(row, steps, r) == row
  {
    if steps == [] {
    } else {
      ReplannedOnly(row, steps[..|steps| - 1], r);
      assert steps[|steps| - 1] in steps && forall s :: s in steps[..|steps| - 1] ==> s in steps;
    }
  }

  lemma StepFrozen(w: World, step: Step, r: RunId)
    requires Terminal(w, r) && r < w.next
    ensures var v := Apply(w, step); Terminal(v, r) && r < v.next && v.runs[r] == ReplannedBy(w.runs[r], step, r)
  {
  }

  /** A run that left 'running' keeps its status, its times and its counters, whatever happens next; only
      the unfenced commits of its own worker still reach its row, and they write nothing but the plan and
      the transcript. */
  lemma {:induction false} TerminalFrozen(w: World, steps: seq<Step>, r: RunId)
    requires Terminal(w, r) && r < w.next
    ensures var v := Exec(w, steps);
            && Terminal(v, r) && r < v.next
            && v.runs[r] == Replanned(w.runs[r], steps, r)
            && Unplanned(v.runs[r]) == Unplanned(w.runs[r])
  {
    ReplannedOnly(w.runs[r], steps, r);
    if steps == [] {
    } else {
      TerminalFrozen(w, steps[..|steps| - 1], r);
      StepFrozen(Exec(w, steps[..|steps| - 1]), steps[|steps| - 1], r);
    }
  }

  ghost predicate BetweenReserveAndEnd(w: World, i: nat)
    requires i < |w.log|
  {
    var r := w.log[i].run;
    && (exists j :: 0 <= j < i && w.log[j] == Reserved(r))
    && (forall j :: 0 <= j <= i ==> w.log[j].Ended? ==> w.log[j].run != r)
    && (Terminal(w, r) ==> exists k :: i < k < |w.log| && w.log[k] == Ended(r, w.runs[r].status))
  }

  lemma PublishedOrder(w: World, i: nat)
    requires OrderedLog(w) && Recorded(w) && i < |w.log| && w.log[i].Published?
    ensures BetweenReserveAndEnd(w, i)
  {
    var r := w.log[i].run;
    assert r in w.runs;
    var j :| 0 <= j < |w.log| && w.log[j] == Reserved(r);
    assert j < i;
    if Terminal(w, r) {
      var k :| 0 <= k < |w.log| && w.log[k] == Ended(r, w.runs[r].status);
      assert i < k;
    }
  }

  /** Every published row was committed after its run was reserved and before its run ended. */
  lemma PublishedOnlyWhileOwned(agents: map<AgentId, Agent>, steps: seq<Step>, i: nat)
    requires var w := Exec(Init(agents), steps); i < |w.log| && w.log[i].Published?
    ensures BetweenReserveAndEnd(Exec(Init(agents), steps), i)
  {
    ExecInv(Init(agents), steps);
    PublishedOrder(Exec(Init(agents), steps), i);
  }

  function WithoutOwner(steps: seq<Step>, r: RunId): seq<Step> {
    if steps == [] then []
    else
      var rest := WithoutOwner(steps[..|steps| - 1], r);
      if ByOwner(steps[|steps| - 1], r) then rest else rest + [steps[|steps| - 1]]
  }

  /** All tables are the same, but for the plan and the transcript of run `r`. */
  ghost predicate SameTables(v: World, w: World, r: RunId) {
    && v.agents == w.agents && v.next == w.next && v.log == w.log && v.runs.Keys == w.runs.Keys
    && (forall q :: q in w.runs && q != r ==> v.runs[q] == w.runs[q])
    && (r in w.runs ==> Unplanned(v.runs[r]) == Unplanned(w.runs[r]))
    && forall q :: q != r ==>
                     (q in v.finishing <==> q in w.finishing)
                     && (q in v.finishing ==> v.finishing[q] == w.finishing[q])
  }

  lemma LateStepInvisible(v: World, w: World, r: RunId, step: Step)
    requires SameTables(v, w, r) && Terminal(w, r) && ByOwner(step, r)
    ensures SameTables(Apply(v, step), w, r)
  {
  }

  lemma ReserveSame(v: World, w: World, r: RunId, a: AgentId, p: Name, now: int)
    requires SameTables(v, w, r)
    ensures SameTables(Apply(v, ReserveStep(a, p, now)), Apply(w, ReserveStep(a, p, now)), r)
  {
    assert forall q :: q in w.runs ==> Unplanned(v.runs[q]) == Unplanned(w.runs[q]);
    assert Conflicts(v, a, p) <==> Conflicts(w, a, p);
  }

  lemma RecoverSame(v: World, w: World, r: RunId, q: RunId, now: int)
    requires SameTables(v, w, r)
    ensures SameTables(Apply(v, RecoverStep(q, now)), Apply(w, RecoverStep(q, now)), r)
  {
    assert q in w.runs ==> Unplanned(v.runs[q]) == Unplanned(w.runs[q]);
  }

  lemma FailSame(v: World, w: World, r: RunId, step: Step)
    requires SameTables(v, w, r) && step.FailStep? && step.run != r
    ensures SameTables(Apply(v, step), Apply(w, step), r)
  {
  }

  lemma CommitSame(v: World, w: World, r: RunId, step: Step)
    requires SameTables(v, w, r) && step.CommitStep? && step.run != r
    ensures SameTables(Apply(v, step), Apply(w, step), r)
  {
  }

  lemma QuietSame(v: World, w: World, r: RunId, step: Step)
    requires SameTables(v, w, r) && !ByOwner(step, r)
    requires !step.ReserveStep? && !step.RecoverStep? && !step.FailStep? && !step.CommitStep?
    ensures SameTables(Apply(v, step), Apply(w, step), r)
  {
  }

  lemma OtherStepSame(v: World, w: World, r: RunId, step: Step)
    requires SameTables(v, w, r) && !ByOwner(step, r)
    ensures SameTables(Apply(v, step), Apply(w, step), r)
  {
    if step.ReserveStep? {
      ReserveSame(v, w, r, step.agent, step.persona, step.now);
    } else if step.RecoverStep? {
      RecoverSame(v, w, r, step.run, step.now);
    } else if step.FailStep? {
      FailSame(v, w, r, step);
    } else if step.CommitStep? {
      CommitSame(v, w, r, step);
    } else {
      QuietSame(v, w, r, step);
    }
  }

  /** Once `r` has been recovered (or ended in any way), everything its late worker still does is
      invisible: erasing that worker's steps from the schedule gives the same tables but for the plan and
      the transcript of `r` itself, so neither a replacement run nor any agent row can tell whether the
      late worker ran. */
  lemma {:induction false} LateWorkerInvisible(w: World, steps: seq<Step>, r: RunId)
    requires Terminal(w, r) && r < w.next
    ensures SameTables(Exec(w, steps), Exec(w, WithoutOwner(steps, r)), r)
  {
    if steps == [] {
    } else {
      var front, last := steps[..|steps| - 1], steps[|steps| - 1];
      LateWorkerInvisible(w, front, r);
      TerminalFrozen(w, WithoutOwner(front, r), r);
      if ByOwner(last, r) {
        LateStepInvisible(Exec(w, front), Exec(w, WithoutOwner(front, r)), r, last);
      } else {
        OtherStepSame(Exec(w, front), Exec(w, WithoutOwner(front, r)), r, last);
        ExecSnoc(w, WithoutOwner(front, r), last);
      }
    }
  }

  ghost predicate SnapshotCurrent(w: World, r: RunId, row: Agent) {
    IsRunning(w, r) ==>
      w.runs[r].agent in w.agents && w.agents[w.runs[r].agent] == row && r in w.finishing && w.finishing[r] == row
  }

  lemma SnapshotStep(w: World, r: RunId, row: Agent, step: Step)
    requires UniqueOwners(w) && r in w.runs && r < w.next && SnapshotCurrent(w, r, row)
    requires step.EditStep? ==> step.agent != w.runs[r].agent
    ensures var v := Apply(w, step);
            r in v.runs && r < v.next && v.runs[r].agent == w.runs[r].agent && SnapshotCurrent(v, r, row)
  {
    var v := Apply(w, step);
    if IsRunning(w, r) && step.RecoverStep? && IsRunning(w, step.run) && step.run != r {
      assert w.runs[step.run].agent != w.runs[r].agent;
    }
  }

  /** The agent row read before a completion is still the live row when the completion commits:
      while the run is running nobody else can reserve, recover or finish a run of that agent. Only
      an outside edit of the row itself can come between. */
  lemma {:induction false} SnapshotFresh(w: World, r: RunId, between: seq<Step>)
    requires Inv(w) && IsRunning(w, r)
    requires forall s :: s in between && s.EditStep? ==> s.agent != w.runs[r].agent
    ensures var v := Exec(Apply(w, ReadStep(r)), between);
            && r in v.runs && r < v.next && v.runs[r].agent == w.runs[r].agent
            && SnapshotCurrent(v, r, w.agents[w.runs[r].agent])
  {
    StepInv(w, ReadStep(r));
    if between == [] {
    } else {
      var front := between[..|between| - 1];
      assert forall s :: s in front ==> s in between;
      SnapshotFresh(w, r, front);
      ExecInv(Apply(w, ReadStep(r)), front);
      SnapshotStep(Exec(Apply(w, ReadStep(r)), front), r, w.agents[w.runs[r].agent], between[|between| - 1]);
    }
  }

  ghost predicate BusyIffRunning(w: World) {
    && (forall a :: a in w.agents ==> (w.agents[a].status == Busy <==> AgentHasRun(w, a)))
    && (forall r :: r in w.finishing && IsRunning(w, r) ==>
          w.runs[r].agent in w.agents && w.finishing[r] == w.agents[w.runs[r].agent])
  }

  lemma EndKeepsBusy(w: World, r: RunId, row: Run, agents: map<AgentId, Agent>)
    requires UniqueOwners(w) && BusyIffRunning(w) && IsRunning(w, r) && row.status != Running
             && row.agent == w.runs[r].agent
    requires agents.Keys == w.agents.Keys && row.agent in agents && agents[row.agent].status != Busy
    requires forall a :: a in agents && a != row.agent ==> agents[a] == w.agents[a]
    ensures BusyIffRunning(End(w, r, row, agents))
  {
    var v := End(w, r, row, agents);
    forall a | a in v.agents
      ensures v.agents[a].status == Busy <==> AgentHasRun(v, a)
    {
      if AgentHasRun(w, a) && a != row.agent {
        var q :| q in w.runs && w.runs[q].status == Running && w.runs[q].agent == a;
        assert q in v.runs && v.runs[q] == w.runs[q];
      }
    }
  }

  lemma ReserveKeepsBusy(w: World, a: AgentId, p: Name, now: int)
    requires Recorded(w) && FinishingKnown(w) && BusyIffRunning(w)
    ensures BusyIffRunning(Apply(w, ReserveStep(a, p, now)))
  {
    var v := Apply(w, ReserveStep(a, p, now));
    if v != w {
      assert w.next in v.runs && v.runs[w.next].agent == a;
      forall b | b in v.agents && b != a
        ensures v.agents[b].status == Busy <==> AgentHasRun(v, b)
      {
        if AgentHasRun(w, b) {
          var q :| q in w.runs && w.runs[q].status == Running && w.runs[q].agent == b;
          assert q in v.runs && v.runs[q] == w.runs[q];
        }
      }
    }
  }

  lemma SameRowsKeepBusy(u: World, v: World)
    requires BusyIffRunning(u) && SameOwners(v, u) && u.agents == v.agents
    requires forall r :: r in v.finishing && r in u.finishing ==> v.finishing[r] == u.finishing[r]
    requires forall r :: r in v.finishing && r !in u.finishing && IsRunning(v, r) ==>
                           v.runs[r].agent in v.agents && v.finishing[r] == v.agents[v.runs[r].agent]
    ensures BusyIffRunning(v)
  {
    forall a
      ensures AgentHasRun(u, a) <==> AgentHasRun(v, a)
    {
    }
  }

  lemma EndingKeepsBusy(u: World, step: Step)
    requires UniqueOwners(u) && BusyIffRunning(u) && (step.RecoverStep? || step.FailStep? || step.CommitStep?)
    requires IsRunning(u, step.run) && u.runs[step.run].agent in u.agents
    requires step.CommitStep? ==> step.run in u.finishing
    ensures BusyIffRunning(Apply(u, step))
  {
    var v, r := Apply(u, step), step.run;
    var ended := End(u, r, v.runs[r], v.agents);
    assert AgentHasRun(u, u.runs[r].agent);
    EndKeepsBusy(u, r, v.runs[r], v.agents);
    if step.CommitStep? { SameRowsKeepBusy(ended, v); }
  }

  lemma QuietKeepsBusy(u: World, step: Step)
    requires FinishingKnown(u) && BusyIffRunning(u) && !step.EditStep? && !step.PlanStep? && !step.TurnStep?
    requires Apply(u, step).log == u.log || step.FlushStep?
    ensures BusyIffRunning(Apply(u, step))
  {
    SameRowsKeepBusy(u, Apply(u, step));
  }

  lemma PlanKeepsBusy(u: World, step: Step)
    requires BusyIffRunning(u) && (step.PlanStep? || step.TurnStep?)
    ensures BusyIffRunning(Apply(u, step))
  {
    PlanMovesNoOwner(u, step);
    SameRowsKeepBusy(u, Apply(u, step));
  }

  lemma StepKeepsBusy(u: World, step: Step)
    requires UniqueOwners(u) && Recorded(u) && FinishingKnown(u) && BusyIffRunning(u) && !step.EditStep?
    ensures BusyIffRunning(Apply(u, step))
  {
    var v := Apply(u, step);
    if step.ReserveStep? {
      ReserveKeepsBusy(u, step.agent, step.persona, step.now);
    } else if step.PlanStep? || step.TurnStep? {
      PlanKeepsBusy(u, step);
    } else if v.log == u.log || step.FlushStep? {
      QuietKeepsBusy(u, step);
    } else {
      EndingKeepsBusy(u, step);
    }
  }

  /** As long as no outside edit touches an agent row, the status column says 'running' exactly when
      the agent has a running run. */
  lemma {:induction false} BusyIffRunningWithoutEdits(w: World, steps: seq<Step>)
    requires Inv(w) && BusyIffRunning(w)
    requires forall s :: s in steps ==> !s.EditStep?
    ensures BusyIffRunning(Exec(w, steps))
  {
    if steps == [] {
    } else {
      var front := steps[..|steps| - 1];
      assert forall s :: s in front ==> s in steps;
      BusyIffRunningWithoutEdits(w, front);
      ExecInv(w, front);
      assert steps[|steps| - 1] in steps;
      StepKeepsBusy(Exec(w, front), steps[|steps| - 1]);
    }
  }

  /// Backing off

  /** The agent's row after runs that failed one after the other at these times, each with a strike. */
  function Struck(row: Agent, times: seq<int>): Agent {
    if times == [] then row
    else FailedAgent(Struck(row, times[..|times| - 1]).(status := Busy), times[|times| - 1], true)
  }

  /** Four strikes in a row back an enabled agent off for 300 seconds each; the fifth disables it. */
  lemma {:induction false} FifthStrikeDisables(row: Agent, times: seq<int>)
    requires row.enabled && row.failures == 0 && times != []
    ensures var after, last := Struck(row, times), times[|times| - 1];
            && after.failures == |times| && after.lastRunAt == Some(last)
            && if |times| < 5 then after.enabled && after.status == Errored && after.nextRunAt == Some(last + 300)
               else !after.enabled && after.status == Disabled && after.nextRunAt == None
  {
    if |times| == 1 {
      assert times[..0] == [];
    } else {
      FifthStrikeDisables(row, times[..|times| - 1]);
    }
  }

  /** A completion that nobody edits the agent's row under leaves the agent idle, without a failure on record,
      and due again after its delay if it is enabled. */
  lemma CompletionMeans(w: World, r: RunId, between: seq<Step>, now: int, delay: int, turns: nat, actions: nat)
    requires Inv(w) && IsRunning(w, r) && w.agents[w.runs[r].agent].status == Busy
    requires forall s :: s in between && s.EditStep? ==> s.agent != w.runs[r].agent
    requires IsRunning(Exec(Apply(w, ReadStep(r)), between), r)
    ensures var before, a := w.agents[w.runs[r].agent], w.runs[r].agent;
            var v := Apply(Exec(Apply(w, ReadStep(r)), between), CommitStep(r, now, delay, turns, actions));
            && v.runs[r].status == Completed && a in v.agents
            && v.agents[a] == before.(status := Idle, lastRunAt := Some(now), failures := 0,
                                      nextRunAt := if before.enabled then Some(now + delay) else None)
  {
    SnapshotFresh(w, r, between);
  }
}
