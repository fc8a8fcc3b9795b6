/** Publication budgets on top of run ownership: the rolling-hour caps per persona and the one post
    per run. The cap is checked before the handler runs, the audited call is stamped after it, and
    any number of other commits, recoveries included, may come in between. */
module RunBudgets {
  import opened AgentRuns
  import opened Names

  datatype Tool = CreatePost | CreateImagePost | CreateWebsite | CreateComment | OtherTool

  /** The three post tools share one bucket. */
  datatype Bucket = PostBucket | CommentBucket | Uncapped

  const WINDOW := 3600

  function BucketOf(tool: Tool): Bucket {
    match tool
    case CreatePost => PostBucket
    case CreateImagePost => PostBucket
    case CreateWebsite => PostBucket
    case CreateComment => CommentBucket
    case OtherTool => Uncapped
  }

  /** The row a tool's handler flushes. */
  function Publishes(tool: Tool): Payload {
    match tool
    case CreatePost => PostRow
    case CreateImagePost => PostRow
    case CreateWebsite => PostRow
    case CreateComment => CommentRow
    case OtherTool => OtherRow
  }

  /** An audited tool call; `persona` is the one of its run, which never changes. */
  datatype Call = Call(run: RunId, persona: Name, tool: Tool, ok: bool, at: int)

  /** A worker in the middle of one tool call: the cap was met at `checkedAt`; `cleared` once the
      handler has seen no earlier post of this run; `published` once its row is committed. */
  datatype Pending = Pending(tool: Tool, checkedAt: int, cleared: bool, published: bool)

  datatype Sys = Sys(w: World, calls: seq<Call>, pending: map<RunId, Pending>, clock: int)

  type Caps = (Name, Bucket) -> nat

  datatype Action =
    | Own(step: Step)
    | Tick(seconds: nat)
    | Check(run: RunId, tool: Tool)
    | Clear(run: RunId)
    | Publish(run: RunId)
    | Record(run: RunId, ok: bool)
    | Abort(run: RunId)

  /** The audit row of the call in progress. */
  function Audit(s: Sys, r: RunId, ok: bool): Call
    requires r in s.pending && r in s.w.runs
  {
    Call(r, s.w.runs[r].persona, s.pending[r].tool, ok && Earned(s.pending[r]), s.clock)
  }

  /** Successful calls of the persona in the bucket, stamped no earlier than `from`. */
  function CountFrom(calls: seq<Call>, p: Name, b: Bucket, from: int): nat {
    if calls == [] then 0
    else
      var c := calls[|calls| - 1];
      CountFrom(calls[..|calls| - 1], p, b, from)
      + if c.ok && c.persona == p && BucketOf(c.tool) == b && from <= c.at then 1 else 0
  }

  /** The same, stamped within the closed interval from `lo` to `hi`. */
  function CountIn(calls: seq<Call>, p: Name, b: Bucket, lo: int, hi: int): nat {
    if calls == [] then 0
    else
      var c := calls[|calls| - 1];
      CountIn(calls[..|calls| - 1], p, b, lo, hi)
      + if c.ok && c.persona == p && BucketOf(c.tool) == b && lo <= c.at <= hi then 1 else 0
  }

  function OkPosts(calls: seq<Call>, r: RunId): nat {
    if calls == [] then 0
    else
      var c := calls[|calls| - 1];
      OkPosts(calls[..|calls| - 1], r) + if c.ok && c.run == r && BucketOf(c.tool) == PostBucket then 1 else 0
  }

  /** Successful calls of the persona with one of the tools, stamped no earlier than `from`. */
  function SuccessesSince(calls: seq<Call>, p: Name, tools: set<Tool>, from: int): nat {
    if calls == [] then 0
    else
      var c := calls[|calls| - 1];
      SuccessesSince(calls[..|calls| - 1], p, tools, from)
      + if c.ok && c.persona == p && c.tool in tools && from <= c.at then 1 else 0
  }

  /** The same, stamped within the closed interval from `lo` to `hi`. */
  function SuccessesIn(calls: seq<Call>, p: Name, tools: set<Tool>, lo: int, hi: int): nat {
    if calls == [] then 0
    else
      var c := calls[|calls| - 1];
      SuccessesIn(calls[..|calls| - 1], p, tools, lo, hi)
      + if c.ok && c.persona == p && c.tool in tools && lo <= c.at <= hi then 1 else 0
  }

  /** Successful calls of one run with one of the tools. */
  function OkCalls(calls: seq<Call>, r: RunId, tools: set<Tool>): nat {
    if calls == [] then 0
    else
      var c := calls[|calls| - 1];
      OkCalls(calls[..|calls| - 1], r, tools) + if c.ok && c.run == r && c.tool in tools then 1 else 0
  }

  /// The buckets, tool by tool

  lemma PostBucketTools(tool: Tool)
    ensures BucketOf(tool) == PostBucket <==> tool in {CreatePost, CreateImagePost, CreateWebsite}
    ensures BucketOf(tool) == CommentBucket <==> tool == CreateComment
  {
  }

  lemma {:induction false} BucketCounts(calls: seq<Call>, p: Name, lo: int, hi: int)
    ensures SuccessesIn(calls, p, {CreatePost, CreateImagePost, CreateWebsite}, lo, hi)
            == CountIn(calls, p, PostBucket, lo, hi)
    ensures SuccessesIn(calls, p, {CreateComment}, lo, hi) == CountIn(calls, p, CommentBucket, lo, hi)
    ensures SuccessesSince(calls, p, {CreatePost, CreateImagePost, CreateWebsite}, lo)
            == CountFrom(calls, p, PostBucket, lo)
    ensures SuccessesSince(calls, p, {CreateComment}, lo) == CountFrom(calls, p, CommentBucket, lo)
  {
    if calls == [] {
    } else {
      BucketCounts(calls[..|calls| - 1], p, lo, hi);
      PostBucketTools(calls[|calls| - 1].tool);
    }
  }

  lemma {:induction false} OkPostsAre(calls: seq<Call>, r: RunId)
    ensures OkCalls(calls, r, {CreatePost, CreateImagePost, CreateWebsite}) == OkPosts(calls, r)
    ensures OkPosts(calls, r) >= 1 <==>
            exists i :: 0 <= i < |calls| && calls[i].run == r && calls[i].ok
                        && calls[i].tool in {CreatePost, CreateImagePost, CreateWebsite}
  {
    if calls == [] {
    } else {
      var front := calls[..|calls| - 1];
      OkPostsAre(front, r);
      assert forall i :: 0 <= i < |front| ==> front[i] == calls[i];
      PostBucketTools(calls[|calls| - 1].tool);
    }
  }

  /** Post rows committed by run `r`, audited or not. */
  function PostsOf(log: seq<Event>, r: RunId): nat {
    if log == [] then 0
    else PostsOf(log[..|log| - 1], r) + if log[|log| - 1] == Published(r, PostRow) then 1 else 0
  }

  /** A handler of a publishing tool reports success only with its row committed. */
  predicate Earned(q: Pending) {
    q.published || BucketOf(q.tool) == Uncapped
  }

  /** One action; an action whose guard fails does nothing. `Record` audits the verdict a handler came back
      with; `Abort` is a handler that raises: the run goes on and nothing is audited. */
  function Act(s: Sys, a: Action, caps: Caps): Sys {
    match a
    case Own(step) => if step.FlushStep? then s else s.(w := Apply(s.w, step))
    case Tick(d) => s.(clock := s.clock + d)
    case Check(r, tool) =>
      if !IsRunning(s.w, r) || r in s.pending then s
      else
        var p, b := s.w.runs[r].persona, BucketOf(tool);
        if b != Uncapped && CountFrom(s.calls, p, b, s.clock - WINDOW) >= caps(p, b)
        then s.(calls := s.calls + [Call(r, p, tool, false, s.clock)])
        else s.(pending := s.pending[r := Pending(tool, s.clock, false, false)])
    case Clear(r) =>
      if r !in s.pending || (BucketOf(s.pending[r].tool) == PostBucket && OkPosts(s.calls, r) >= 1) then s
      else s.(pending := s.pending[r := s.pending[r].(cleared := true)])
    case Publish(r) =>
      if r !in s.pending || !s.pending[r].cleared || s.pending[r].published || !IsRunning(s.w, r) then s
      else s.(w := Apply(s.w, FlushStep(r, Publishes(s.pending[r].tool))),
              pending := s.pending[r := s.pending[r].(published := true)])
    case Record(r, ok) =>
      if r !in s.pending then s
      else if !IsRunning(s.w, r) then s.(pending := s.pending - {r})
      else s.(calls := s.calls + [Audit(s, r, ok)], pending := s.pending - {r})
    case Abort(r) => s.(pending := s.pending - {r})
  }

  function Play(s: Sys, actions: seq<Action>, caps: Caps): Sys {
    if actions == [] then s else Act(Play(s, actions[..|actions| - 1], caps), actions[|actions| - 1], caps)
  }

  function Start(agents: map<AgentId, Agent>, clock: int): Sys {
    Sys(Init(agents), [], map[], clock)
  }

  lemma {:induction false} PlaySnoc(s: Sys, actions: seq<Action>, a: Action, caps: Caps)
    ensures Play(s, actions + [a], caps) == Act(Play(s, actions, caps), a, caps)
  {
    assert (actions + [a])[..|actions|] == actions;
  }

  lemma {:induction false} PlayConcat(s: Sys, a: seq<Action>, b: seq<Action>, caps: Caps)
    ensures Play(s, a + b, caps) == Play(Play(s, a, caps), b, caps)
    decreases |b|
  {
    if b == [] {
      assert a + b == a;
    } else {
      PlayConcat(s, a, b[..|b| - 1], caps);
      assert (a + b)[..|a + b| - 1] == a + b[..|b| - 1];
    }
  }

  /// Rolling-hour caps

  lemma {:induction false} WindowBelowRecent(calls: seq<Call>, p: Name, b: Bucket, lo: int, hi: int, from: int)
    requires from <= lo
    ensures CountIn(calls, p, b, lo, hi) <= CountFrom(calls, p, b, from)
  {
    if calls == [] {
    } else {
      WindowBelowRecent(calls[..|calls| - 1], p, b, lo, hi, from);
    }
  }

  ghost predicate WindowsCapped(calls: seq<Call>, caps: Caps) {
    forall p, b, lo, hi :: b != Uncapped && hi <= lo + WINDOW ==> CountIn(calls, p, b, lo, hi) <= caps(p, b)
  }

  /** A live worker past its check still has room in its bucket. */
  ghost predicate RoomLeft(s: Sys, caps: Caps) {
    forall r :: r in s.pending && IsRunning(s.w, r) ==>
                  var q := s.pending[r];
                  && q.checkedAt <= s.clock
                  && (BucketOf(q.tool) != Uncapped ==>
                        CountFrom(s.calls, s.w.runs[r].persona, BucketOf(q.tool), q.checkedAt - WINDOW)
                        < caps(s.w.runs[r].persona, BucketOf(q.tool)))
  }

  /** Ownership steps never revive a run, rename its persona, or reuse its id. */
  ghost predicate Extends(v: World, w: World) {
    && (forall r :: r in w.runs ==> r in v.runs && v.runs[r].persona == w.runs[r].persona)
    && (forall r :: r in w.runs && IsRunning(v, r) ==> IsRunning(w, r))
  }

  ghost predicate IdsKnown(w: World) {
    && (forall r :: r in w.runs ==> r < w.next)
    && (forall i :: 0 <= i < |w.log| ==> w.log[i].run in w.runs)
  }

  lemma InvKnowsIds(w: World)
    requires Inv(w)
    ensures IdsKnown(w) && UniqueOwners(w)
  {
  }

  lemma StepExtends(w: World, step: Step)
    requires IdsKnown(w)
    ensures Extends(Apply(w, step), w)
  {
  }

  ghost predicate PendingKnown(s: Sys) {
    forall r :: r in s.pending ==> r in s.w.runs
  }

  lemma AppendCall(calls: seq<Call>, c: Call)
    ensures (calls + [c])[..|calls|] == calls
  {
  }

  lemma RecordKeepsWindows(s: Sys, r: RunId, ok: bool, caps: Caps)
    requires WindowsCapped(s.calls, caps) && RoomLeft(s, caps) && r in s.pending && IsRunning(s.w, r)
    ensures WindowsCapped(Act(s, Record(r, ok), caps).calls, caps)
  {
    var c := Audit(s, r, ok);
    AppendCall(s.calls, c);
    forall p, b, lo, hi | b != Uncapped && hi <= lo + WINDOW
      ensures CountIn(s.calls + [c], p, b, lo, hi) <= caps(p, b)
    {
      assert CountIn(s.calls, p, b, lo, hi) <= caps(p, b);
      if c.persona == p && BucketOf(c.tool) == b && lo <= c.at <= hi {
        WindowBelowRecent(s.calls, p, b, lo, hi, s.pending[r].checkedAt - WINDOW);
      }
    }
  }

  lemma RecordKeepsRoom(s: Sys, r: RunId, ok: bool, caps: Caps)
    requires UniqueOwners(s.w) && RoomLeft(s, caps) && r in s.pending && IsRunning(s.w, r)
    ensures RoomLeft(Act(s, Record(r, ok), caps), caps)
  {
    var c := Audit(s, r, ok);
    AppendCall(s.calls, c);
  }

  lemma RejectionCounts(s: Sys, c: Call, caps: Caps)
    requires !c.ok && WindowsCapped(s.calls, caps) && RoomLeft(s, caps)
    ensures WindowsCapped(s.calls + [c], caps) && RoomLeft(s.(calls := s.calls + [c]), caps)
  {
    AppendCall(s.calls, c);
    forall p, b, lo, hi
      ensures CountIn(s.calls + [c], p, b, lo, hi) == CountIn(s.calls, p, b, lo, hi)
    {
    }
  }

  lemma OwnKeepsRoom(s: Sys, v: World, caps: Caps)
    requires RoomLeft(s, caps) && PendingKnown(s) && Extends(v, s.w)
    ensures RoomLeft(s.(w := v), caps) && PendingKnown(s.(w := v))
  {
  }

  lemma PublishKeepsRoom(s: Sys, r: RunId, caps: Caps)
    requires RoomLeft(s, caps) && PendingKnown(s)
    ensures RoomLeft(Act(s, Publish(r), caps), caps) && PendingKnown(Act(s, Publish(r), caps))
  {
  }

  lemma CheckKeepsCaps(s: Sys, r: RunId, tool: Tool, caps: Caps)
    requires WindowsCapped(s.calls, caps) && RoomLeft(s, caps) && PendingKnown(s)
    ensures var v := Act(s, Check(r, tool), caps); WindowsCapped(v.calls, caps) && RoomLeft(v, caps) && PendingKnown(v)
  {
    if IsRunning(s.w, r) && r !in s.pending {
      RejectionCounts(s, Call(r, s.w.runs[r].persona, tool, false, s.clock), caps);
    }
  }

  ghost predicate CapInv(s: Sys, caps: Caps) {
    Inv(s.w) && PendingKnown(s) && WindowsCapped(s.calls, caps) && RoomLeft(s, caps)
  }

  lemma ActInv(s: Sys, a: Action, caps: Caps)
    requires Inv(s.w)
    ensures Inv(Act(s, a, caps).w)
  {
    var v := Act(s, a, caps).w;
    if v != s.w {
      StepInv(s.w, if a.Own? then a.step else FlushStep(a.run, Publishes(s.pending[a.run].tool)));
    }
  }

  lemma ClockAndClearKeepRoom(s: Sys, a: Action, caps: Caps)
    requires RoomLeft(s, caps) && PendingKnown(s) && (a.Tick? || a.Clear? || a.Abort?)
    ensures RoomLeft(Act(s, a, caps), caps) && PendingKnown(Act(s, a, caps))
  {
  }

  lemma CapsKept(s: Sys, a: Action, caps: Caps)
    requires UniqueOwners(s.w) && IdsKnown(s.w)
    requires PendingKnown(s) && WindowsCapped(s.calls, caps) && RoomLeft(s, caps)
    ensures var v := Act(s, a, caps); PendingKnown(v) && WindowsCapped(v.calls, caps) && RoomLeft(v, caps)
  {
    match a
    case Own(step) =>
      StepExtends(s.w, step);
      OwnKeepsRoom(s, Apply(s.w, step), caps);
    case Tick(d) => ClockAndClearKeepRoom(s, a, caps);
    case Check(r, tool) => CheckKeepsCaps(s, r, tool, caps);
    case Clear(r) => ClockAndClearKeepRoom(s, a, caps);
    case Publish(r) => PublishKeepsRoom(s, r, caps);
    case Abort(r) => ClockAndClearKeepRoom(s, a, caps);
    case Record(r, ok) =>
      if r in s.pending && IsRunning(s.w, r) {
        RecordKeepsWindows(s, r, ok, caps);
        RecordKeepsRoom(s, r, ok, caps);
      }
  }

  lemma CapStep(s: Sys, a: Action, caps: Caps)
    requires CapInv(s, caps)
    ensures CapInv(Act(s, a, caps), caps)
  {
    ActInv(s, a, caps);
    InvKnowsIds(s.w);
    CapsKept(s, a, caps);
  }

  lemma {:induction false} CapRun(s: Sys, actions: seq<Action>, caps: Caps)
    requires CapInv(s, caps)
    ensures CapInv(Play(s, actions, caps), caps)
  {
    if actions == [] {
    } else {
      CapRun(s, actions[..|actions| - 1], caps);
      CapStep(Play(s, actions[..|actions| - 1], caps), actions[|actions| - 1], caps);
    }
  }

  /** Over all runs of a persona, every closed hour holds at most one cap of successful calls of the three
      post tools together, and at most the comments' cap of comments, although the check comes before the
      handler and the stamp after it. */
  lemma HourlyCapHolds(agents: map<AgentId, Agent>, clock: int, actions: seq<Action>, caps: Caps, p: Name, lo: int)
    ensures var calls := Play(Start(agents, clock), actions, caps).calls;
            && SuccessesIn(calls, p, {CreatePost, CreateImagePost, CreateWebsite}, lo, lo + 3600) <= caps(p, PostBucket)
            && SuccessesIn(calls, p, {CreateComment}, lo, lo + 3600) <= caps(p, CommentBucket)
  {
    CapRun(Start(agents, clock), actions, caps);
    BucketCounts(Play(Start(agents, clock), actions, caps).calls, p, lo, lo + 3600);
  }

  /// One post per run

  lemma AppendEventPosts(log: seq<Event>, e: Event, r: RunId)
    ensures PostsOf(log + [e], r) == PostsOf(log, r) + if e == Published(r, PostRow) then 1 else 0
  {
    assert (log + [e])[..|log|] == log;
  }

  lemma OkPostsSnoc(calls: seq<Call>, c: Call, r: RunId)
    ensures OkPosts(calls + [c], r)
            == OkPosts(calls, r) + if c.ok && c.run == r && BucketOf(c.tool) == PostBucket then 1 else 0
  {
    AppendCall(calls, c);
  }

  /** A post of run `r` is committed, and its call is not over. */
  predicate PostInProgress(s: Sys, r: RunId) {
    r in s.pending && s.pending[r].published && BucketOf(s.pending[r].tool) == PostBucket
  }

  /** A call ends with its post committed and no successful audit: the handler raised, or reported failure,
      or its run had ended. */
  predicate Leaks(s: Sys, a: Action, r: RunId) {
    PostInProgress(s, r) && (a == Abort(r) || (a.Record? && a.run == r && !(a.ok && IsRunning(s.w, r))))
  }

  /** How often that happened. */
  function LeakCount(s: Sys, actions: seq<Action>, caps: Caps, r: RunId): nat {
    if actions == [] then 0
    else
      var front := actions[..|actions| - 1];
      LeakCount(s, front, caps, r) + if Leaks(Play(s, front, caps), actions[|actions| - 1], r) then 1 else 0
  }

  lemma LeaksSnoc(s: Sys, actions: seq<Action>, a: Action, caps: Caps, r: RunId)
    ensures LeakCount(s, actions + [a], caps, r)
            == LeakCount(s, actions, caps, r) + if Leaks(Play(s, actions, caps), a, r) then 1 else 0
  {
    assert (actions + [a])[..|actions|] == actions;
  }

  /** Ownership steps other than flushes publish nothing. */
  lemma OwnPublishesNothing(w: World, step: Step, r: RunId)
    requires !step.FlushStep?
    ensures PostsOf(Apply(w, step).log, r) == PostsOf(w.log, r)
  {
    var v := Apply(w, step);
    if v.log != w.log {
      var e := v.log[|w.log|];
      assert v.log == w.log + [e] && !e.Published?;
      AppendEventPosts(w.log, e, r);
    }
  }

  /** The committed posts of run `r` are the audited ones, the `leaks`, and the one in progress. */
  ghost predicate PostsBalance(s: Sys, r: RunId, leaks: nat) {
    PostsOf(s.w.log, r) == OkPosts(s.calls, r) + leaks + if PostInProgress(s, r) then 1 else 0
  }

  /** At most one audited post, and none while another one is cleared. */
  ghost predicate OneCleared(s: Sys, r: RunId) {
    && OkPosts(s.calls, r) <= 1
    && (r in s.pending && s.pending[r].cleared && BucketOf(s.pending[r].tool) == PostBucket
        ==> OkPosts(s.calls, r) == 0)
    && (r in s.pending && s.pending[r].published ==> s.pending[r].cleared)
  }

  ghost predicate Accounted(s: Sys, r: RunId, leaks: nat) {
    PostsBalance(s, r, leaks) && OneCleared(s, r)
  }

  lemma OwnKeepsAccount(s: Sys, step: Step, r: RunId, leaks: nat)
    requires Accounted(s, r, leaks) && !step.FlushStep?
    ensures Accounted(s.(w := Apply(s.w, step)), r, leaks)
  {
    OwnPublishesNothing(s.w, step, r);
  }

  lemma RefusalKeepsAccount(s: Sys, c: Call, r: RunId, leaks: nat)
    requires Accounted(s, r, leaks) && !c.ok
    ensures Accounted(s.(calls := s.calls + [c]), r, leaks)
  {
    OkPostsSnoc(s.calls, c, r);
  }

  lemma AdmissionKeepsAccount(s: Sys, q: RunId, tool: Tool, r: RunId, leaks: nat)
    requires Accounted(s, r, leaks) && q !in s.pending
    ensures Accounted(s.(pending := s.pending[q := Pending(tool, s.clock, false, false)]), r, leaks)
  {
  }

  lemma CheckKeepsAccount(s: Sys, q: RunId, tool: Tool, caps: Caps, r: RunId, leaks: nat)
    requires Accounted(s, r, leaks)
    ensures Accounted(Act(s, Check(q, tool), caps), r, leaks)
  {
    if IsRunning(s.w, q) && q !in s.pending {
      RefusalKeepsAccount(s, Call(q, s.w.runs[q].persona, tool, false, s.clock), r, leaks);
      AdmissionKeepsAccount(s, q, tool, r, leaks);
    }
  }

  lemma PublishKeepsAccount(s: Sys, q: RunId, caps: Caps, r: RunId, leaks: nat)
    requires Accounted(s, r, leaks)
    ensures Accounted(Act(s, Publish(q), caps), r, leaks)
  {
    if q in s.pending {
      AppendEventPosts(s.w.log, Published(q, Publishes(s.pending[q].tool)), r);
    }
  }

  /** A call is over: its post is audited as successful now, or it has leaked. */
  lemma CallOver(s: Sys, q: RunId, calls: seq<Call>, audited: bool, r: RunId, leaks: nat)
    requires Accounted(s, r, leaks) && q in s.pending
    requires OkPosts(calls, r) == OkPosts(s.calls, r) + if q == r && PostInProgress(s, r) && audited then 1 else 0
    ensures Accounted(s.(calls := calls, pending := s.pending - {q}), r,
                      leaks + if q == r && PostInProgress(s, r) && !audited then 1 else 0)
  {
  }

  lemma RecordKeepsAccount(s: Sys, q: RunId, ok: bool, caps: Caps, r: RunId, leaks: nat)
    requires Accounted(s, r, leaks)
    ensures Accounted(Act(s, Record(q, ok), caps), r, leaks + if Leaks(s, Record(q, ok), r) then 1 else 0)
  {
    if q in s.pending {
      if IsRunning(s.w, q) {
        OkPostsSnoc(s.calls, Audit(s, q, ok), r);
        CallOver(s, q, s.calls + [Audit(s, q, ok)], ok, r, leaks);
      } else {
        CallOver(s, q, s.calls, false, r, leaks);
      }
    }
  }

  lemma AccountStep(s: Sys, a: Action, caps: Caps, r: RunId, leaks: nat)
    requires Accounted(s, r, leaks)
    ensures Accounted(Act(s, a, caps), r, leaks + if Leaks(s, a, r) then 1 else 0)
  {
    match a
    case Own(step) => if !step.FlushStep? { OwnKeepsAccount(s, step, r, leaks); }
    case Check(q, tool) => CheckKeepsAccount(s, q, tool, caps, r, leaks);
    case Publish(q) => PublishKeepsAccount(s, q, caps, r, leaks);
    case Record(q, ok) => RecordKeepsAccount(s, q, ok, caps, r, leaks);
    case _ =>
  }

  lemma {:induction false} AccountRun(s: Sys, actions: seq<Action>, caps: Caps, r: RunId)
    requires Accounted(s, r, 0)
    ensures Accounted(Play(s, actions, caps), r, LeakCount(s, actions, caps, r))
  {
    if actions == [] {
    } else {
      var front, last := actions[..|actions| - 1], actions[|actions| - 1];
      AccountRun(s, front, caps, r);
      AccountStep(Play(s, front, caps), last, caps, r, LeakCount(s, front, caps, r));
    }
  }

  /** How often run `r` committed the row of one of the tools. */
  function Publications(s: Sys, actions: seq<Action>, caps: Caps, r: RunId, tools: set<Tool>): nat {
    if actions == [] then 0
    else
      var front, last := actions[..|actions| - 1], actions[|actions| - 1];
      var before := Play(s, front, caps);
      Publications(s, front, caps, r, tools)
      + if last == Publish(r) && r in before.pending && before.pending[r].tool in tools
           && |Act(before, last, caps).w.log| > |before.w.log| then 1 else 0
  }

  lemma PublicationIsPost(s: Sys, a: Action, caps: Caps, r: RunId)
    ensures PostsOf(Act(s, a, caps).w.log, r)
            == PostsOf(s.w.log, r)
               + if a == Publish(r) && r in s.pending
                    && s.pending[r].tool in {CreatePost, CreateImagePost, CreateWebsite}
                    && |Act(s, a, caps).w.log| > |s.w.log| then 1 else 0
  {
    match a
    case Own(step) => if !step.FlushStep? { OwnPublishesNothing(s.w, step, r); }
    case Publish(q) =>
      if q in s.pending { AppendEventPosts(s.w.log, Published(q, Publishes(s.pending[q].tool)), r); }
    case _ =>
  }

  lemma {:induction false} PublicationsArePosts(s: Sys, actions: seq<Action>, caps: Caps, r: RunId)
    ensures PostsOf(Play(s, actions, caps).w.log, r)
            == PostsOf(s.w.log, r) + Publications(s, actions, caps, r, {CreatePost, CreateImagePost, CreateWebsite})
  {
    if actions == [] {
    } else {
      var front := actions[..|actions| - 1];
      PublicationsArePosts(s, front, caps, r);
      PublicationIsPost(Play(s, front, caps), actions[|actions| - 1], caps, r);
    }
  }

  /** In every run of the system, the posts a run commits with the three tools are its audited one, the one in
      progress and those that leaked past the audit: without a leak at most one, even when the run is recovered
      between publishing and auditing, and with `n` leaks at most `n + 1`. */
  lemma OnePostPerRun(agents: map<AgentId, Agent>, clock: int, actions: seq<Action>, caps: Caps, r: RunId)
    ensures var start, tools := Start(agents, clock), {CreatePost, CreateImagePost, CreateWebsite};
            var v, leaks := Play(start, actions, caps), LeakCount(start, actions, caps, r);
            var posts, audited := Publications(start, actions, caps, r, tools), OkCalls(v.calls, r, tools);
            var running := r in v.pending && v.pending[r].published && v.pending[r].tool in tools;
            && posts == audited + leaks + (if running then 1 else 0)
            && audited <= 1 && posts <= 1 + leaks
  {
    var start := Start(agents, clock);
    var v := Play(start, actions, caps);
    AccountRun(start, actions, caps, r);
    PublicationsArePosts(start, actions, caps, r);
    AccountMeans(v, r, LeakCount(start, actions, caps, r));
  }

  /** The account, tool by tool. */
  lemma AccountMeans(s: Sys, r: RunId, leaks: nat)
    requires Accounted(s, r, leaks)
    ensures var tools := {CreatePost, CreateImagePost, CreateWebsite};
            var running := r in s.pending && s.pending[r].published && s.pending[r].tool in tools;
            && PostsOf(s.w.log, r) == OkCalls(s.calls, r, tools) + leaks + (if running then 1 else 0)
            && OkCalls(s.calls, r, tools) <= 1 && PostsOf(s.w.log, r) <= 1 + leaks
  {
    OkPostsAre(s.calls, r);
    if r in s.pending {
      PostBucketTools(s.pending[r].tool);
    }
  }

  /** Run `r` may call a post tool now: it is running, has no call in progress and room under its cap. */
  predicate MayCall(s: Sys, r: RunId, caps: Caps) {
    && IsRunning(s.w, r) && r !in s.pending
    && SuccessesSince(s.calls, s.w.runs[r].persona, {CreatePost, CreateImagePost, CreateWebsite}, s.clock - 3600)
       < caps(s.w.runs[r].persona, PostBucket)
  }

  function Posting(r: RunId, tool: Tool): seq<Action> {
    [Check(r, tool), Clear(r), Publish(r)]
  }

  lemma Admits(s: Sys, r: RunId, tool: Tool, caps: Caps)
    requires MayCall(s, r, caps) && tool in {CreatePost, CreateImagePost, CreateWebsite}
    ensures Act(s, Check(r, tool), caps) == s.(pending := s.pending[r := Pending(tool, s.clock, false, false)])
  {
    BucketCounts(s.calls, s.w.runs[r].persona, s.clock - 3600, s.clock);
  }

  lemma ClearsAndPublishes(s: Sys, r: RunId, caps: Caps) returns (v: Sys)
    requires IsRunning(s.w, r) && r in s.pending && s.pending[r].tool in {CreatePost, CreateImagePost, CreateWebsite}
    requires !s.pending[r].cleared && !s.pending[r].published
    ensures v == Act(Act(s, Clear(r), caps), Publish(r), caps)
    ensures v.calls == s.calls && v.clock == s.clock && v.w.runs == s.w.runs && v.pending.Keys == s.pending.Keys
    ensures PostsOf(v.w.log, r) == PostsOf(s.w.log, r) + if OkPosts(s.calls, r) == 0 then 1 else 0
    ensures v.pending[r].tool == s.pending[r].tool && v.pending[r].published == (OkPosts(s.calls, r) == 0)
  {
    v := Act(Act(s, Clear(r), caps), Publish(r), caps);
    AppendEventPosts(s.w.log, Published(r, PostRow), r);
  }

  /** A run that may call a post tool commits one more post if none was audited, and none otherwise. */
  lemma PostingCommits(s: Sys, r: RunId, tool: Tool, caps: Caps) returns (v: Sys)
    requires MayCall(s, r, caps) && tool in {CreatePost, CreateImagePost, CreateWebsite}
    ensures v == Play(s, Posting(r, tool), caps)
    ensures v.calls == s.calls && v.clock == s.clock && v.w.runs == s.w.runs && v.pending.Keys == s.pending.Keys + {r}
    ensures PostsOf(v.w.log, r) == PostsOf(s.w.log, r) + if OkPosts(s.calls, r) == 0 then 1 else 0
    ensures v.pending[r].tool == tool && v.pending[r].published == (OkPosts(s.calls, r) == 0)
  {
    Admits(s, r, tool, caps);
    v := ClearsAndPublishes(s.(pending := s.pending[r := Pending(tool, s.clock, false, false)]), r, caps);
    PlayThree(s, Check(r, tool), Clear(r), Publish(r), caps);
  }

  lemma PlayThree(s: Sys, a: Action, b: Action, c: Action, caps: Caps)
    ensures Play(s, [a, b, c], caps) == Act(Act(Act(s, a, caps), b, caps), c, caps)
  {
    PlaySnoc(s, [], a, caps);
    assert [] + [a] == [a];
    PlaySnoc(s, [a], b, caps);
    assert [a] + [b] == [a, b];
    PlaySnoc(s, [a, b], c, caps);
    assert [a, b] + [c] == [a, b, c];
  }

  lemma PostingLeaksNothing(start: Sys, actions: seq<Action>, r: RunId, tool: Tool, caps: Caps)
    ensures LeakCount(start, actions + Posting(r, tool), caps, r) == LeakCount(start, actions, caps, r)
  {
    LeaksSnoc(start, actions, Check(r, tool), caps, r);
    LeaksSnoc(start, actions + [Check(r, tool)], Clear(r), caps, r);
    LeaksSnoc(start, actions + [Check(r, tool)] + [Clear(r)], Publish(r), caps, r);
    assert actions + [Check(r, tool)] + [Clear(r)] + [Publish(r)] == actions + Posting(r, tool);
  }

  /** When the budget holds: whatever has happened so far, a running run that goes on to call a post tool
      under its cap has at most one post afterwards exactly if it never leaked one. */
  lemma BudgetIffNoLeak(agents: map<AgentId, Agent>, clock: int, actions: seq<Action>, caps: Caps, r: RunId, tool: Tool)
    requires MayCall(Play(Start(agents, clock), actions, caps), r, caps)
             && tool in {CreatePost, CreateImagePost, CreateWebsite}
    ensures var start, tools := Start(agents, clock), {CreatePost, CreateImagePost, CreateWebsite};
            Publications(start, actions + Posting(r, tool), caps, r, tools) <= 1
            <==> LeakCount(start, actions, caps, r) == 0
  {
    var start := Start(agents, clock);
    var s := Play(start, actions, caps);
    OkPostsAre(s.calls, r);
    OnePostPerRun(agents, clock, actions, caps, r);
    OnePostPerRun(agents, clock, actions + Posting(r, tool), caps, r);
    PostingLeaksNothing(start, actions, r, tool, caps);
    PlayConcat(start, actions, Posting(r, tool), caps);
    var v := PostingCommits(s, r, tool, caps);
  }

  /// Concrete leaks

  lemma Reserving(a: AgentId, row: Agent, p: Name, caps: Caps) returns (s: Sys, v: Sys)
    ensures s == Start(map[a := row], 0) && v == Play(s, [Own(ReserveStep(a, p, 0))], caps)
    ensures IsRunning(v.w, 0) && v.w.runs[0].persona == p && v.calls == [] && v.pending == map[] && v.clock == 0
    ensures PostsOf(v.w.log, 0) == 0
  {
    s := Start(map[a := row], 0);
    v := Act(s, Own(ReserveStep(a, p, 0)), caps);
    PlaySnoc(s, [], Own(ReserveStep(a, p, 0)), caps);
    assert [] + [Own(ReserveStep(a, p, 0))] == [Own(ReserveStep(a, p, 0))];
    OwnPublishesNothing(s.w, ReserveStep(a, p, 0), 0);
  }

  /** A call of run 0 that ends with `ending` once its post is committed. */
  function LeakingCall(a: AgentId, p: Name, tool: Tool, ending: Action): seq<Action> {
    [Own(ReserveStep(a, p, 0))] + Posting(0, tool) + [ending]
  }

  /** A call with its post committed ends without a successful audit: the budget is as free as before. */
  lemma EndingLeaks(s: Sys, p: Name, ending: Action, caps: Caps)
    requires caps(p, PostBucket) > 0 && (ending == Abort(0) || ending == Record(0, false))
    requires IsRunning(s.w, 0) && s.w.runs[0].persona == p && s.calls == [] && PostInProgress(s, 0)
    ensures Leaks(s, ending, 0) && MayCall(Act(s, ending, caps), 0, caps) && OkPosts(Act(s, ending, caps).calls, 0) == 0
  {
    OkPostsSnoc([], Audit(s, 0, false), 0);
    AppendCall([], Audit(s, 0, false));
    assert [] + [Audit(s, 0, false)] == [Audit(s, 0, false)];
  }

  lemma LeakingCallLeaks(a: AgentId, row: Agent, p: Name, caps: Caps, tool: Tool, ending: Action)
    requires caps(p, PostBucket) > 0 && tool in {CreatePost, CreateImagePost, CreateWebsite}
             && (ending == Abort(0) || ending == Record(0, false))
    ensures var start, actions := Start(map[a := row], 0), LeakingCall(a, p, tool, ending);
            && LeakCount(start, actions, caps, 0) == 1
            && MayCall(Play(start, actions, caps), 0, caps) && OkPosts(Play(start, actions, caps).calls, 0) == 0
  {
    var head := [Own(ReserveStep(a, p, 0))];
    var start, s := Reserving(a, row, p, caps);
    var v := PostingCommits(s, 0, tool, caps);
    PlayConcat(start, head, Posting(0, tool), caps);
    EndingLeaks(v, p, ending, caps);
    PlaySnoc(start, head + Posting(0, tool), ending, caps);
    NoLeakYet(start, head[0], caps);
    PostingLeaksNothing(start, head, 0, tool, caps);
    LeaksSnoc(start, head + Posting(0, tool), ending, caps, 0);
  }

  lemma NoLeakYet(start: Sys, a: Action, caps: Caps)
    requires a.Own?
    ensures LeakCount(start, [a], caps, 0) == 0
  {
    LeaksSnoc(start, [], a, caps, 0);
    assert [] + [a] == [a];
  }

  lemma LeakThenPost(a: AgentId, row: Agent, p: Name, caps: Caps, tool: Tool, ending: Action, again: Tool)
    requires caps(p, PostBucket) > 0 && tool in {CreatePost, CreateImagePost, CreateWebsite}
             && (ending == Abort(0) || ending == Record(0, false))
    requires again in {CreatePost, CreateImagePost, CreateWebsite}
    ensures var actions := LeakingCall(a, p, tool, ending) + Posting(0, again);
            Publications(Start(map[a := row], 0), actions, caps, 0, {CreatePost, CreateImagePost, CreateWebsite}) == 2
  {
    var start, actions := Start(map[a := row], 0), LeakingCall(a, p, tool, ending);
    LeakingCallLeaks(a, row, p, caps, tool, ending);
    OkPostsAre(Play(start, actions, caps).calls, 0);
    OnePostPerRun(map[a := row], 0, actions + Posting(0, again), caps, 0);
    PostingLeaksNothing(start, actions, 0, again, caps);
    PlayConcat(start, actions, Posting(0, again), caps);
    var v := PostingCommits(Play(start, actions, caps), 0, again, caps);
  }

  /** A text post whose hooks raise after its commit leaves no audited call, and the run posts again. */
  lemma RaisingAfterCommitPostsTwice(a: AgentId, row: Agent, p: Name, caps: Caps)
    requires caps(p, PostBucket) > 0
    ensures var actions := LeakingCall(a, p, CreatePost, Abort(0)) + Posting(0, CreatePost);
            Publications(Start(map[a := row], 0), actions, caps, 0, {CreatePost, CreateImagePost, CreateWebsite}) == 2
  {
    LeakThenPost(a, row, p, caps, CreatePost, Abort(0), CreatePost);
  }

  /** An image post whose hooks fail with a database error after its commit is reported as not saved, without
      anything being raised, and the run posts again. */
  lemma FailingAfterCommitPostsTwice(a: AgentId, row: Agent, p: Name, caps: Caps)
    requires caps(p, PostBucket) > 0
    ensures var actions := LeakingCall(a, p, CreateImagePost, Record(0, false)) + Posting(0, CreatePost);
            Publications(Start(map[a := row], 0), actions, caps, 0, {CreatePost, CreateImagePost, CreateWebsite}) == 2
  {
    LeakThenPost(a, row, p, caps, CreateImagePost, Record(0, false), CreatePost);
  }

  /// One tool call of one worker

  predicate ByWorker(a: Action, r: RunId) {
    match a
    case Own(step) => ByOwner(step, r)
    case Tick(_) => false
    case Check(q, _) => q == r
    case Clear(q) => q == r
    case Publish(q) => q == r
    case Record(q, _) => q == r
    case Abort(q) => q == r
  }

  /** The other actors leave this worker's call in progress alone. */
  lemma {:induction false} PendingStays(s: Sys, actions: seq<Action>, caps: Caps, r: RunId)
    requires forall a :: a in actions ==> !ByWorker(a, r)
    ensures r in Play(s, actions, caps).pending <==> r in s.pending
    ensures r in s.pending ==> Play(s, actions, caps).pending[r] == s.pending[r]
  {
    if actions == [] {
    } else {
      var front := actions[..|actions| - 1];
      assert forall a :: a in front ==> a in actions;
      PendingStays(s, front, caps, r);
      assert actions[|actions| - 1] in actions;
    }
  }

  /** How a handler ends once past its own checks: it replies, raises an error that the executor turns into
      a failed result, or raises one that it does not. */
  datatype Ending = Replies(ok: bool) | Rejected | Raises

  /** What a handler does: whether it comes to its flush, and how it ends. */
  datatype Handling = Handling(flushes: bool, ending: Ending)

  datatype Outcome = Answered(ok: bool) | Escaped

  predicate HasPublished(s: Sys, r: RunId) {
    r in s.pending && s.pending[r].published
  }

  predicate HasCleared(s: Sys, r: RunId) {
    r in s.pending && s.pending[r].cleared
  }

  function Closing(r: RunId, ending: Ending): Action {
    match ending
    case Replies(ok) => Record(r, ok)
    case Rejected => Record(r, false)
    case Raises => Abort(r)
  }

  /** The rest of a call that `before` led up to, with the others' commits `env` before each further step; a
      handler that loses its fence is answered with a failure. */
  function Handled(s: Sys, before: seq<Action>, run: RunId, h: Handling, env: seq<seq<Action>>, caps: Caps): seq<Action>
    requires |env| == 2
  {
    if !h.flushes then before + env[0] + [Closing(run, h.ending)]
    else
      var flushed := before + env[0] + [Publish(run)];
      flushed + env[1]
        + [if HasPublished(Play(s, flushed, caps), run) then Closing(run, h.ending) else Record(run, false)]
  }

  /** All that happens from the start of a call to its end. */
  function Called(s: Sys, run: RunId, tool: Tool, h: Handling, env: seq<seq<Action>>, caps: Caps): seq<Action>
    requires |env| == 3
  {
    var checked := [Check(run, tool)];
    if run !in Play(s, checked, caps).pending then checked
    else
      var asked := checked + env[0] + [Clear(run)];
      if !HasCleared(Play(s, asked, caps), run) then asked + [Record(run, false)]
      else Handled(s, asked, run, h, env[1..], caps)
  }

  class Executor {
    var world: World
    var calls: seq<Call>
    var pending: map<RunId, Pending>
    var clock: int

    function View(): Sys
      reads this
    {
      Sys(world, calls, pending, clock)
    }

    /** What the other workers, the recovery sweep and the clock do before the next statement of the
        worker of `run`, which has played `trace` since `start`. */
    method Interfere(actions: seq<Action>, caps: Caps, ghost run: RunId, ghost start: Sys, ghost trace: seq<Action>)
      requires forall a :: a in actions ==> !ByWorker(a, run)
      requires View() == Play(start, trace, caps)
      modifies this
      ensures View() == Play(start, trace + actions, caps)
      ensures run in pending <==> run in old(pending)
      ensures run in pending ==> pending[run] == old(pending)[run]
    {
      PendingStays(View(), actions, caps, run);
      PlayConcat(start, trace, actions, caps);
      var s := Play(View(), actions, caps);
      world, calls, pending, clock := s.w, s.calls, s.pending, s.clock;
    }

    /** The rate-cap gate; a refused call is audited as unsuccessful and consumes no quota. */
    method Gate(run: RunId, tool: Tool, caps: Caps) returns (admitted: bool)
      requires run !in pending
      modifies this
      ensures View() == Act(old(View()), Check(run, tool), caps)
      ensures admitted <==> run in pending
      ensures admitted ==> pending[run].tool == tool && !pending[run].published && !pending[run].cleared
      ensures !IsRunning(old(world), run) ==> !admitted
      ensures IsRunning(old(world), run) && tool in {CreatePost, CreateImagePost, CreateWebsite} ==>
                var p := old(world).runs[run].persona;
                admitted <==> SuccessesSince(old(calls), p, {CreatePost, CreateImagePost, CreateWebsite}, clock - 3600)
                              < caps(p, PostBucket)
      ensures IsRunning(old(world), run) && tool == CreateComment ==>
                var p := old(world).runs[run].persona;
                admitted <==> SuccessesSince(old(calls), p, {CreateComment}, clock - 3600) < caps(p, CommentBucket)
      ensures IsRunning(old(world), run) && tool == OtherTool ==> admitted
      ensures calls == if admitted || !IsRunning(old(world), run) then old(calls)
                       else old(calls) + [Call(run, world.runs[run].persona, tool, false, clock)]
    {
      if !IsRunning(world, run) {
        return false;
      }
      var persona, bucket := world.runs[run].persona, BucketOf(tool);
      BucketCounts(calls, persona, clock - 3600, clock);
      if bucket != Uncapped && CountFrom(calls, persona, bucket, clock - WINDOW) >= caps(persona, bucket) {
        calls := calls + [Call(run, persona, tool, false, clock)];
        return false;
      }
      pending := pending[run := Pending(tool, clock, false, false)];
      return true;
    }

    /** Audits the handler's verdict if the run still owns it; reports what was stored. */
    method PersistAndReturn(run: RunId, verdict: bool, caps: Caps) returns (ok: bool)
      requires run in pending && (verdict ==> pending[run].published || pending[run].tool == OtherTool)
      modifies this
      ensures View() == Act(old(View()), Record(run, verdict), caps)
      ensures ok <==> IsRunning(old(world), run) && verdict
      ensures IsRunning(old(world), run) ==>
                calls == old(calls) + [Call(run, world.runs[run].persona, old(pending)[run].tool, verdict, clock)]
      ensures !IsRunning(old(world), run) ==> calls == old(calls)
    {
      var q := pending[run];
      pending := pending - {run};
      if !IsRunning(world, run) {
        return false;
      }
      calls := calls + [Call(run, world.runs[run].persona, q.tool, verdict, clock)];
      return verdict;
    }

    /** The handler's own check: a second post in the same run is refused. */
    method ClearedToPublish(run: RunId, caps: Caps) returns (cleared: bool)
      requires run in pending && !pending[run].cleared
      modifies this
      ensures View() == Act(old(View()), Clear(run), caps)
      ensures run in pending && cleared == pending[run].cleared
              && pending[run] == old(pending)[run].(cleared := cleared)
      ensures cleared <==>
              !(pending[run].tool in {CreatePost, CreateImagePost, CreateWebsite} &&
                exists i :: 0 <= i < |calls| && calls[i].run == run && calls[i].ok
                            && calls[i].tool in {CreatePost, CreateImagePost, CreateWebsite})
    {
      OkPostsAre(calls, run);
      if BucketOf(pending[run].tool) == PostBucket && OkPosts(calls, run) >= 1 {
        return false;
      }
      pending := pending[run := pending[run].(cleared := true)];
      return true;
    }

    /** The fenced flush: the row is committed only if the run is still running. */
    method PublishFenced(run: RunId, caps: Caps)
      requires run in pending && pending[run].cleared && !pending[run].published
      modifies this
      ensures View() == Act(old(View()), Publish(run), caps)
      ensures run in pending && pending[run].published == IsRunning(old(world), run)
      ensures IsRunning(old(world), run) ==>
                exists row :: world == old(world).(log := old(world).log + [Published(run, row)])
                              && (row == PostRow <==> pending[run].tool in {CreatePost, CreateImagePost, CreateWebsite})
                              && (row == CommentRow <==> pending[run].tool == CreateComment)
      ensures !IsRunning(old(world), run) ==> world == old(world)
    {
      if IsRunning(world, run) {
        world := Apply(world, FlushStep(run, Publishes(pending[run].tool)));
        pending := pending[run := pending[run].(published := true)];
      }
    }

    /** The last audited call is a successful one of this tool. */
    predicate LastAudit(run: RunId, tool: Tool)
      reads this
    {
      run in world.runs && calls != [] && calls[|calls| - 1] == Call(run, world.runs[run].persona, tool, true, clock)
    }

    /** The end of a call: the verdict is audited, or the handler's error goes up unaudited. */
    method Close(run: RunId, ending: Ending, caps: Caps) returns (outcome: Outcome)
      requires run in pending && (ending == Replies(true) ==> pending[run].published || pending[run].tool == OtherTool)
      modifies this
      ensures View() == Act(old(View()), Closing(run, ending), caps) && run !in pending
      ensures outcome.Escaped? <==> ending.Raises?
      ensures outcome == Answered(true) <==> ending == Replies(true) && IsRunning(old(world), run)
      ensures outcome == Answered(true) ==> IsRunning(world, run) && LastAudit(run, old(pending)[run].tool)
      ensures Leaks(old(View()), Closing(run, ending), run)
              <==> PostInProgress(old(View()), run) && outcome != Answered(true)
    {
      match ending {
        case Replies(verdict) =>
          var ok := PersistAndReturn(run, verdict, caps);
          outcome := Answered(ok);
        case Rejected =>
          var ok := PersistAndReturn(run, false, caps);
          outcome := Answered(ok);
        case Raises =>
          pending := pending - {run};
          outcome := Escaped;
      }
    }

    /** The handler past its own checks. */
    method Handle(run: RunId, h: Handling, env: seq<seq<Action>>, caps: Caps, ghost start: Sys,
                  ghost before: seq<Action>)
      returns (outcome: Outcome)
      requires |env| == 2 && View() == Play(start, before, caps)
      requires forall i, a :: 0 <= i < |env| && a in env[i] ==> !ByWorker(a, run)
      requires run in pending && pending[run].cleared && !pending[run].published
      requires h.ending == Replies(true) ==> h.flushes || pending[run].tool == OtherTool
      modifies this
      ensures View() == Play(start, Handled(start, before, run, h, env, caps), caps) && run !in pending
      ensures outcome.Escaped? ==> h.ending.Raises?
      ensures outcome == Answered(true) ==>
                h.ending == Replies(true) && IsRunning(world, run) && LastAudit(run, old(pending)[run].tool)
    {
      ghost var trace := before + env[0];
      Interfere(env[0], caps, run, start, before);
      var ending := h.ending;
      if h.flushes {
        PlaySnoc(start, trace, Publish(run), caps);
        PublishFenced(run, caps);
        if !pending[run].published {
          ending := Rejected;
        }
        trace := trace + [Publish(run)];
        Interfere(env[1], caps, run, start, trace);
        trace := trace + env[1];
      }
      PlaySnoc(start, trace, Closing(run, ending), caps);
      outcome := Close(run, ending, caps);
    }

    /** One call: gate, one-post check, handler with its fenced commit, audit. `env` is what others do in
        between. Whatever the handler does, the tables are those of its steps among theirs, nothing stays in
        progress, and a call that reports success is the last one audited. */
    method Execute(run: RunId, tool: Tool, h: Handling, env: seq<seq<Action>>, caps: Caps) returns (outcome: Outcome)
      requires run !in pending && |env| == 3
      requires forall i, a :: 0 <= i < |env| && a in env[i] ==> !ByWorker(a, run)
      requires h.ending == Replies(true) ==> h.flushes || tool == OtherTool
      modifies this
      ensures View() == Play(old(View()), Called(old(View()), run, tool, h, env, caps), caps) && run !in pending
      ensures outcome.Escaped? ==> h.ending.Raises?
      ensures outcome == Answered(true) ==>
                h.ending == Replies(true) && IsRunning(world, run) && LastAudit(run, tool)
    {
      ghost var start := View();
      ghost var checked := [Check(run, tool)];
      PlaySnoc(start, [], Check(run, tool), caps);
      assert [] + [Check(run, tool)] == checked;
      var admitted := Gate(run, tool, caps);
      if !admitted {
        return Answered(false);
      }
      Interfere(env[0], caps, run, start, checked);
      PlaySnoc(start, checked + env[0], Clear(run), caps);
      var cleared := ClearedToPublish(run, caps);
      ghost var asked := checked + env[0] + [Clear(run)];
      if !cleared {
        PlaySnoc(start, asked, Record(run, false), caps);
        outcome := Close(run, Rejected, caps);
      } else {
        outcome := Handle(run, h, env[1..], caps, start, asked);
      }
    }
  }
}
