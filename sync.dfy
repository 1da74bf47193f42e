/**
 * The sync loop: each cycle reads the checkpoint, fetches the page of events
 * after it, and turns every event into records in the target directory,
 * until a page comes back empty.
 */
module Sync {

  import opened Wrappers
  import opened TimeFormat
  import opened Env
  import opened Gitlab
  import opened Git

  datatype UserInfo = UserInfo(id: UserId, commitEmail: string)

  /**
   * Everything outside the process: the user, the reply to each cycle's
   * events request, the commits listing for each query, the clock in each
   * cycle, and the outcome of each local write (numbered from 0, counting
   * `CreateGitCommit` and `SetLastRecordedDate` calls alike).
   */
  datatype World = World(
    user: UserInfo,
    pages: seq<Reply<seq<ProjectEvent>>>,
    commits: CommitsQuery -> Reply<seq<Commit>>,
    clock: nat -> Time,
    faults: nat -> Option<Fault>)

  /** What the run has asked of the outside: local writes so far, commit lookups, event requests. */
  datatype Trace = Trace(writes: nat, lookups: seq<CommitsQuery>, requests: seq<string>)

  datatype RunState = RunState(dir: DirState, trace: Trace)

  /** Why the process stopped through `log.Fatal`. */
  datatype Halt =
    | CheckpointUnreadable(readError: ReadError)
    | EventsFailed(eventsError: FetchError)
    | CommitsFailed(commitsError: FetchError)
    | WriteFault(fault: Fault)

  datatype Exec = Exec(state: RunState, halt: Option<Halt>)

  /** The case of the `switch` that handles an event. */
  datatype Branch = NewBranch | SingleCommit | NewBranchWithCommits | PushedCommits | OpenedMergeRequest | NotHandled

  /** The `switch` of the event loop: cases are tried in order and the first that matches wins. */
  function Classify(e: ProjectEvent): (b: Branch)
    ensures b == NewBranch <==> e.actionName == "pushed new" && e.pushData.commitCount == 1
    ensures b == SingleCommit <==> e.actionName == "pushed to" && e.pushData.commitCount == 1
    ensures b == NewBranchWithCommits <==> e.actionName == "pushed new" && e.pushData.commitCount != 1
    ensures b == PushedCommits <==> e.actionName == "pushed to" && e.pushData.commitCount != 1
    ensures b == OpenedMergeRequest <==> e.actionName == "opened" && e.targetType == "MergeRequest"
    ensures b == NotHandled <==>
              e.actionName != "pushed new" && e.actionName != "pushed to"
              && !(e.actionName == "opened" && e.targetType == "MergeRequest")
  {
    if e.actionName == "pushed new" && e.pushData.commitCount == 1 then NewBranch
    else if e.actionName == "pushed to" && e.pushData.commitCount == 1 then SingleCommit
    else if e.actionName == "pushed new" then NewBranchWithCommits
    else if e.actionName == "pushed to" then PushedCommits
    else if e.actionName == "opened" && e.targetType == "MergeRequest" then OpenedMergeRequest
    else NotHandled
  }

  predicate Expands(b: Branch) {
    b == NewBranchWithCommits || b == PushedCommits
  }

  /** A local write the event loop performs: a `CreateGitCommit` or a `SetLastRecordedDate`. */
  datatype Step = Record(message: string, date: Time) | Checkpoint(date: Time)

  /** One `"created a commit"` record per commit, in the order given. */
  function Expansion(commits: seq<Commit>): (steps: seq<Step>)
    ensures |steps| == |commits|
    decreases |commits|
  {
    if commits == [] then []
    else [Record("created a commit", commits[0].authoredDate)] + Expansion(commits[1..])
  }

  /** The `i`-th record of an expansion is the one for the `i`-th commit. */
  lemma {:induction false} ExpansionAt(commits: seq<Commit>)
    ensures forall i :: 0 <= i < |commits| ==> Expansion(commits)[i] == Record("created a commit", commits[i].authoredDate)
    decreases |commits|
  {
    if commits != [] {
      ExpansionAt(commits[1..]);
      forall i | 1 <= i < |commits|
        ensures Expansion(commits)[i] == Record("created a commit", commits[i].authoredDate)
      {
        assert Expansion(commits)[i] == Expansion(commits[1..])[i - 1];
        assert commits[1..][i - 1] == commits[i];
      }
    }
  }

  /** The writes an event calls for, given the commits its push expands to. */
  function Plan(e: ProjectEvent, commits: seq<Commit>): seq<Step> {
    match Classify(e)
    case NewBranch => [Record("pushed new branch", e.createdAt)]
    case SingleCommit => [Record("created a commit", e.createdAt)]
    case NewBranchWithCommits =>
      Expansion(commits) + [Checkpoint(e.createdAt), Record("pushed new branch", e.createdAt)]
    case PushedCommits => Expansion(commits) + [Checkpoint(e.createdAt)]
    case OpenedMergeRequest => [Record("opened merge request", e.createdAt)]
    case NotHandled => []
  }

  /**
   * The shape of each case: a single push, a new branch or an opened merge
   * request is one record at the event's time, whatever the commits; a
   * multi-commit push is one record per commit at its authored date, then
   * the checkpoint at the event's time, then, for a new branch only, the
   * branch record as the last write; any other event writes nothing.
   */
  lemma PlanShape(e: ProjectEvent, commits: seq<Commit>)
    ensures var p, b := Plan(e, commits), Classify(e);
            (b == NewBranch ==> p == [Record("pushed new branch", e.createdAt)])
            && (b == SingleCommit ==> p == [Record("created a commit", e.createdAt)])
            && (b == OpenedMergeRequest ==> p == [Record("opened merge request", e.createdAt)])
            && (b == NotHandled <==> p == [])
    ensures var p, b := Plan(e, commits), Classify(e);
            Expands(b) ==>
              && |p| == |commits| + (if b == NewBranchWithCommits then 2 else 1)
              && (forall i :: 0 <= i < |commits| ==> p[i] == Record("created a commit", commits[i].authoredDate))
              && p[|commits|] == Checkpoint(e.createdAt)
              && (b == NewBranchWithCommits ==> p[|p| - 1] == Record("pushed new branch", e.createdAt))
              && (b == PushedCommits ==> forall i :: 0 <= i < |p| && p[i].Record? ==> p[i].message == "created a commit")
  {
    ExpansionAt(commits);
  }

  /** One write, numbered by the trace; a failure halts the run. */
  function ApplyStep(st: RunState, step: Step, w: World): Exec {
    var fault := w.faults(st.trace.writes);
    var trace := st.trace.(writes := st.trace.writes + 1);
    match step
    case Record(message, date) =>
      Exec(RunState(Materialize(st.dir, message, date, fault), trace),
           if fault.Some? then Some(WriteFault(fault.value)) else None)
    case Checkpoint(date) =>
      var failed := fault == Some(CheckpointWriteFailed);
      Exec(RunState(SetCheckpoint(st.dir, date, failed), trace),
           if failed then Some(WriteFault(CheckpointWriteFailed)) else None)
  }

  /** The writes in order, up to the first that fails. */
  function ExecSteps(st: RunState, steps: seq<Step>, w: World): Exec
    decreases |steps|
  {
    if steps == [] then Exec(st, None)
    else
      var x := ApplyStep(st, steps[0], w);
      if x.halt.Some? then x else ExecSteps(x.state, steps[1..], w)
  }

  /** `HandleMultipleCommits`: look the commits up, record each, then move the checkpoint. */
  function Expand(st: RunState, e: ProjectEvent, w: World): Exec {
    var q := CommitsQueryOf(e, w.user.commitEmail);
    var looked := st.(trace := st.trace.(lookups := st.trace.lookups + [q]));
    match CommitsFromReply(w.commits(q), e.pushData.commitCount)
    case Err(err) => Exec(looked, Some(CommitsFailed(err)))
    case Ok(commits) => ExecSteps(looked, Expansion(commits) + [Checkpoint(e.createdAt)], w)
  }

  /** One pass through the `switch` for an event. */
  function Handle(st: RunState, e: ProjectEvent, w: World): Exec {
    match Classify(e)
    case NewBranch => ExecSteps(st, [Record("pushed new branch", e.createdAt)], w)
    case SingleCommit => ExecSteps(st, [Record("created a commit", e.createdAt)], w)
    case NewBranchWithCommits =>
      var x := Expand(st, e, w);
      if x.halt.Some? then x else ExecSteps(x.state, [Record("pushed new branch", e.createdAt)], w)
    case PushedCommits => Expand(st, e, w)
    case OpenedMergeRequest => ExecSteps(st, [Record("opened merge request", e.createdAt)], w)
    case NotHandled => Exec(st, None)
  }

  /** How a run ends: an empty page in some cycle, a fatal error, or the end of the scripted pages. */
  datatype Stop = Done(cycle: nat) | Halted(why: Halt) | Exhausted

  datatype Final = Final(state: RunState, stop: Stop)

  /** The outer loop from cycle `cycle` on. */
  function RunFrom(st: RunState, cycle: nat, w: World): Final
    decreases |w.pages| - cycle, 1, 0
  {
    if cycle >= |w.pages| then Final(st, Exhausted)
    else
      match GetLastRecordedDate(st.dir.checkpoint, w.clock(cycle))
      case Err(err) => Final(st, Halted(CheckpointUnreadable(err)))
      case Ok(from) =>
        var asked := st.(trace := st.trace.(requests := st.trace.requests + [EventsEndpoint(w.user.id, from)]));
        match GetEvents(w.pages[cycle])
        case Err(err) => Final(asked, Halted(EventsFailed(err)))
        case Ok(events) =>
          if events == [] then Final(asked, Done(cycle)) else ProcessEvents(asked, events, cycle, w)
  }

  /**
   * The rest of the page of cycle `cycle`, in page order, up to the first
   * event that halts the run; after the last one, the next cycle.
   */
  function ProcessEvents(st: RunState, events: seq<ProjectEvent>, cycle: nat, w: World): Final
    requires cycle < |w.pages|
    decreases |w.pages| - cycle, 0, |events|
  {
    if events == [] then RunFrom(st, cycle + 1, w)
    else
      var x := Handle(st, events[0], w);
      if x.halt.Some? then Final(x.state, Halted(x.halt.value)) else ProcessEvents(x.state, events[1..], cycle, w)
  }

  // ----- Executing writes -----

  /** Running two lists of writes one after the other is running their concatenation. */
  lemma {:induction false} ExecStepsAppend(st: RunState, a: seq<Step>, b: seq<Step>, w: World)
    ensures ExecSteps(st, a + b, w)
            == (var x := ExecSteps(st, a, w); if x.halt.Some? then x else ExecSteps(x.state, b, w))
    decreases |a|
  {
    if a == [] {
      assert a + b == b;
    } else {
      assert (a + b)[0] == a[0] && (a + b)[1..] == a[1..] + b;
      ExecStepsAppend(ApplyStep(st, a[0], w).state, a[1..], b, w);
    }
  }

  lemma ExecFirst(st: RunState, step: Step, rest: seq<Step>, w: World)
    ensures ExecSteps(st, [step] + rest, w)
            == (var x := ApplyStep(st, step, w); if x.halt.Some? then x else ExecSteps(x.state, rest, w))
  {
    assert ([step] + rest)[0] == step && ([step] + rest)[1..] == rest;
  }

  lemma ExecSingle(st: RunState, step: Step, w: World)
    ensures ExecSteps(st, [step], w) == ApplyStep(st, step, w)
  {
    assert [step][1..] == [];
  }

  /**
   * Handling an event performs exactly the writes of its plan; the
   * commits are looked up, once, only for a multi-commit push.
   */
  lemma HandleFollowsPlan(st: RunState, e: ProjectEvent, w: World)
    ensures var q := CommitsQueryOf(e, w.user.commitEmail);
            var reply := CommitsFromReply(w.commits(q), e.pushData.commitCount);
            var looked := st.(trace := st.trace.(lookups := st.trace.lookups + [q]));
            Handle(st, e, w)
            == if !Expands(Classify(e)) then ExecSteps(st, Plan(e, []), w)
               else if reply.Err? then Exec(looked, Some(CommitsFailed(reply.error)))
               else ExecSteps(looked, Plan(e, reply.value), w)
  {
    var q := CommitsQueryOf(e, w.user.commitEmail);
    var reply := CommitsFromReply(w.commits(q), e.pushData.commitCount);
    var looked := st.(trace := st.trace.(lookups := st.trace.lookups + [q]));
    if Classify(e) == NewBranchWithCommits && reply.Ok? {
      var steps := Expansion(reply.value) + [Checkpoint(e.createdAt)];
      assert Plan(e, reply.value) == steps + [Record("pushed new branch", e.createdAt)];
      ExecStepsAppend(looked, steps, [Record("pushed new branch", e.createdAt)], w);
    }
  }

  lemma StepsKeepLookupsAndRequests(st: RunState, steps: seq<Step>, w: World)
    ensures var t := ExecSteps(st, steps, w).state.trace;
            t.lookups == st.trace.lookups && t.requests == st.trace.requests
            && t.writes <= st.trace.writes + |steps|
    decreases |steps|
  {
    if steps != [] {
      StepsKeepLookupsAndRequests(ApplyStep(st, steps[0], w).state, steps[1..], w);
    }
  }

  /**
   * An event that is not a multi-commit push looks nothing up, and one that
   * matches no case changes nothing and lets the loop go on.
   */
  lemma NoLookupWithoutExpansion(st: RunState, e: ProjectEvent, w: World)
    requires !Expands(Classify(e))
    ensures Handle(st, e, w).state.trace.lookups == st.trace.lookups
    ensures Classify(e) == NotHandled ==> Handle(st, e, w) == Exec(st, None)
  {
    HandleFollowsPlan(st, e, w);
    StepsKeepLookupsAndRequests(st, Plan(e, []), w);
  }

  /**
   * A single-commit push is exactly one `CreateGitCommit` at the event's time:
   * `"pushed new branch"` for a new branch, `"created a commit"` otherwise.
   */
  lemma SingleCommitIsOneRecord(st: RunState, e: ProjectEvent, w: World)
    requires e.pushData.commitCount == 1 && (e.actionName == "pushed new" || e.actionName == "pushed to")
    ensures var message := if e.actionName == "pushed new" then "pushed new branch" else "created a commit";
            var fault := w.faults(st.trace.writes);
            Handle(st, e, w).state.dir == Materialize(st.dir, message, e.createdAt, fault)
            && Handle(st, e, w).state.trace == st.trace.(writes := st.trace.writes + 1)
  {
    var message := if e.actionName == "pushed new" then "pushed new branch" else "created a commit";
    ExecSingle(st, Record(message, e.createdAt), w);
  }

  /** A write that succeeds leaves its own date in the checkpoint. */
  lemma StepCheckpoint(st: RunState, step: Step, w: World)
    requires ApplyStep(st, step, w).halt.None?
    ensures ApplyStep(st, step, w).state.dir.checkpoint == Written(step.date)
  {
    if step.Record? {
      MaterializeCheckpointAndLog(st.dir, step.message, step.date, None);
    }
  }

  /** After a run of writes that all succeed, the checkpoint holds what the last one wrote. */
  lemma {:induction false} CheckpointAfterSteps(st: RunState, steps: seq<Step>, w: World)
    requires steps != [] && ExecSteps(st, steps, w).halt.None?
    ensures ExecSteps(st, steps, w).state.dir.checkpoint == Written(steps[|steps| - 1].date)
    decreases |steps|
  {
    ExecHead(st, steps, w);
    if |steps| == 1 {
      assert steps == [steps[0]];
      SingleCheckpoint(st, steps[0], w);
    } else {
      var x := ApplyStep(st, steps[0], w);
      assert steps[1..][|steps[1..]| - 1] == steps[|steps| - 1];
      CheckpointAfterSteps(x.state, steps[1..], w);
    }
  }

  /** A single write that succeeds leaves its date in the checkpoint. */
  lemma SingleCheckpoint(st: RunState, step: Step, w: World)
    requires ExecSteps(st, [step], w).halt.None?
    ensures ExecSteps(st, [step], w).state.dir.checkpoint == Written(step.date)
  {
    ExecSingle(st, step, w);
    StepCheckpoint(st, step, w);
  }

  /** A run of writes that succeeds starts with a write that succeeds, and goes on from its state. */
  lemma ExecHead(st: RunState, steps: seq<Step>, w: World)
    requires steps != [] && ExecSteps(st, steps, w).halt.None?
    ensures var x := ApplyStep(st, steps[0], w);
            x.halt.None? && ExecSteps(x.state, steps[1..], w) == ExecSteps(st, steps, w)
  {
  }

  /**
   * After a multi-commit push is handled without error, the checkpoint holds
   * the event's time, whatever the dates of its commits.
   */
  lemma ExpansionLeavesEventTime(st: RunState, e: ProjectEvent, w: World)
    requires Expands(Classify(e)) && Handle(st, e, w).halt.None?
    ensures Handle(st, e, w).state.dir.checkpoint == Written(e.createdAt)
  {
    HandleFollowsPlan(st, e, w);
    var q := CommitsQueryOf(e, w.user.commitEmail);
    var reply := CommitsFromReply(w.commits(q), e.pushData.commitCount);
    var looked := st.(trace := st.trace.(lookups := st.trace.lookups + [q]));
    PlanShape(e, reply.value);
    CheckpointAfterSteps(looked, Plan(e, reply.value), w);
  }

  predicate DatesInOrder(steps: seq<Step>) {
    forall i, j :: 0 <= i < j < |steps| ==> steps[i].date.unix <= steps[j].date.unix
  }

  /** A run of writes that succeeds succeeds on each prefix, which leaves the checkpoint of its last write. */
  lemma CheckpointAfterPrefix(st: RunState, steps: seq<Step>, w: World, i: nat)
    requires 1 <= i <= |steps| && ExecSteps(st, steps, w).halt.None?
    ensures ExecSteps(st, steps[..i], w).halt.None?
    ensures ExecSteps(st, steps[..i], w).state.dir.checkpoint == Written(steps[i - 1].date)
  {
    var pre := steps[..i];
    assert pre + steps[i..] == steps;
    assert pre[|pre| - 1] == steps[i - 1];
    CheckpointAfterSplit(st, pre, steps[i..], w);
  }

  lemma CheckpointAfterSplit(st: RunState, a: seq<Step>, b: seq<Step>, w: World)
    requires a != [] && ExecSteps(st, a + b, w).halt.None?
    ensures ExecSteps(st, a, w).halt.None?
    ensures ExecSteps(st, a, w).state.dir.checkpoint == Written(a[|a| - 1].date)
  {
    PrefixSucceeds(st, a, b, w);
    CheckpointAfterSteps(st, a, w);
  }

  /** When a run of writes succeeds, so does each of its prefixes. */
  lemma PrefixSucceeds(st: RunState, a: seq<Step>, b: seq<Step>, w: World)
    requires ExecSteps(st, a + b, w).halt.None?
    ensures ExecSteps(st, a, w).halt.None?
  {
    ExecStepsAppend(st, a, b, w);
  }

  /** After the first `i` writes succeed, the checkpoint reads back as the date of the `i`-th. */
  lemma PrefixReadBack(st: RunState, steps: seq<Step>, w: World, i: nat, now: Time)
    requires 1 <= i <= |steps| && ExecSteps(st, steps, w).halt.None?
    requires WellFormed(steps[i - 1].date)
    ensures var a := ExecSteps(st, steps[..i], w);
            a.halt.None? && GetLastRecordedDate(a.state.dir.checkpoint, now) == Ok(steps[i - 1].date)
  {
    CheckpointAfterPrefix(st, steps, w, i);
    ExactReadBack(steps[i - 1].date, now);
  }

  /**
   * The checkpoint is overwritten, not raised to a maximum, so it moves
   * forward only when the writes come in date order: then a later
   * checkpoint reads back as an instant no earlier than a former one.
   */
  lemma CheckpointMonotone(st: RunState, steps: seq<Step>, w: World, i: nat, j: nat, now: Time)
    requires 1 <= i <= j <= |steps| && DatesInOrder(steps)
    requires WellFormed(steps[i - 1].date) && WellFormed(steps[j - 1].date)
    requires ExecSteps(st, steps, w).halt.None?
    ensures var a, b := ExecSteps(st, steps[..i], w), ExecSteps(st, steps[..j], w);
            && a.halt.None? && b.halt.None?
            && GetLastRecordedDate(a.state.dir.checkpoint, now) == Ok(steps[i - 1].date)
            && GetLastRecordedDate(b.state.dir.checkpoint, now) == Ok(steps[j - 1].date)
            && steps[i - 1].date.unix <= steps[j - 1].date.unix
  {
    InOrderAt(steps, i, j);
    PrefixReadBack(st, steps, w, i, now);
    PrefixReadBack(st, steps, w, j, now);
  }

  lemma InOrderAt(steps: seq<Step>, i: nat, j: nat)
    requires 1 <= i <= j <= |steps| && DatesInOrder(steps)
    ensures steps[i - 1].date.unix <= steps[j - 1].date.unix
  {
    if i < j { assert 0 <= i - 1 < j - 1 < |steps|; }
  }

  /** A write whose fault slot is empty succeeds, takes one write number and leaves its date in the checkpoint. */
  lemma StepSucceeds(st: RunState, step: Step, w: World)
    requires w.faults(st.trace.writes).None?
    ensures var x := ApplyStep(st, step, w);
            x.halt.None? && x.state.trace.writes == st.trace.writes + 1 && x.state.dir.checkpoint == Written(step.date)
  {
    StepCheckpoint(st, step, w);
  }

  /** Two writes in a row that do not fail: the first one's date, then the second one's, is the checkpoint. */
  lemma TwoRecords(st: RunState, s1: Step, s2: Step, w: World)
    requires w.faults(st.trace.writes).None? && w.faults(st.trace.writes + 1).None?
    ensures var x1, x2 := ExecSteps(st, [s1], w), ExecSteps(st, [s1, s2], w);
            && x1.halt.None? && x1.state.dir.checkpoint == Written(s1.date)
            && x2.halt.None? && x2.state.dir.checkpoint == Written(s2.date)
  {
    var x1 := ApplyStep(st, s1, w);
    StepSucceeds(st, s1, w);
    StepSucceeds(x1.state, s2, w);
    ExecSingle(st, s1, w);
    ExecSingle(x1.state, s2, w);
    assert [s1] + [s2] == [s1, s2];
    ExecFirst(st, s1, [s2], w);
  }

  /**
   * The checkpoint is not raised to a maximum: a successful record dated
   * before the previous one moves it back, and the next cycle reads the
   * earlier instant.
   */
  lemma CheckpointCanRegress(st: RunState, a: Time, b: Time, w: World, now: Time)
    requires w.faults(st.trace.writes).None? && w.faults(st.trace.writes + 1).None?
    requires WellFormed(a) && WellFormed(b) && b.unix < a.unix
    ensures var s1, s2 := Record("created a commit", a), Record("created a commit", b);
            var x1, x2 := ExecSteps(st, [s1], w), ExecSteps(st, [s1, s2], w);
            && x1.halt.None? && GetLastRecordedDate(x1.state.dir.checkpoint, now) == Ok(a)
            && x2.halt.None? && GetLastRecordedDate(x2.state.dir.checkpoint, now) == Ok(b)
  {
    TwoRecords(st, Record("created a commit", a), Record("created a commit", b), w);
    ExactReadBack(a, now);
    ExactReadBack(b, now);
  }

  // ----- The outer loop -----

  /** Handling an event never asks for events. */
  lemma HandleKeepsRequests(st: RunState, e: ProjectEvent, w: World)
    ensures Handle(st, e, w).state.trace.requests == st.trace.requests
  {
    HandleFollowsPlan(st, e, w);
    var q := CommitsQueryOf(e, w.user.commitEmail);
    var reply := CommitsFromReply(w.commits(q), e.pushData.commitCount);
    var looked := st.(trace := st.trace.(lookups := st.trace.lookups + [q]));
    StepsKeepLookupsAndRequests(st, Plan(e, []), w);
    if reply.Ok? {
      StepsKeepLookupsAndRequests(looked, Plan(e, reply.value), w);
    }
  }

  /** Requests already made stay in the trace: it only grows. */
  lemma {:induction false} RunKeepsRequests(st: RunState, cycle: nat, w: World)
    ensures st.trace.requests <= RunFrom(st, cycle, w).state.trace.requests
    decreases |w.pages| - cycle, 1, 0
  {
    if cycle < |w.pages| {
      var read := GetLastRecordedDate(st.dir.checkpoint, w.clock(cycle));
      if read.Ok? {
        var asked := st.(trace := st.trace.(requests := st.trace.requests + [EventsEndpoint(w.user.id, read.value)]));
        var page := GetEvents(w.pages[cycle]);
        if page.Ok? && page.value != [] {
          EventsKeepRequests(asked, page.value, cycle, w);
        }
      }
    }
  }

  lemma {:induction false} EventsKeepRequests(st: RunState, events: seq<ProjectEvent>, cycle: nat, w: World)
    requires cycle < |w.pages|
    ensures st.trace.requests <= ProcessEvents(st, events, cycle, w).state.trace.requests
    decreases |w.pages| - cycle, 0, |events|
  {
    if events == [] {
      RunKeepsRequests(st, cycle + 1, w);
    } else {
      var x := Handle(st, events[0], w);
      HandleKeepsRequests(st, events[0], w);
      if x.halt.None? {
        EventsKeepRequests(x.state, events[1..], cycle, w);
      }
    }
  }

  /**
   * Each cycle reads the checkpoint afresh and asks for the events after it:
   * the cycle's request is the events URL for the instant the checkpoint
   * holds at the start of that cycle.
   */
  lemma CycleAsksAfterCheckpoint(st: RunState, cycle: nat, w: World, from: Time)
    requires cycle < |w.pages|
    requires GetLastRecordedDate(st.dir.checkpoint, w.clock(cycle)) == Ok(from)
    ensures var r := RunFrom(st, cycle, w).state.trace.requests;
            |st.trace.requests| < |r| && r[|st.trace.requests|] == EventsEndpoint(w.user.id, from)
  {
    var asked := st.(trace := st.trace.(requests := st.trace.requests + [EventsEndpoint(w.user.id, from)]));
    var page := GetEvents(w.pages[cycle]);
    if page.Ok? && page.value != [] {
      EventsKeepRequests(asked, page.value, cycle, w);
    }
  }

  /** The run ends normally only in a cycle whose page is empty. */
  lemma {:induction false} DoneOnlyOnEmptyPage(st: RunState, cycle: nat, w: World)
    requires RunFrom(st, cycle, w).stop.Done?
    ensures var c := RunFrom(st, cycle, w).stop.cycle;
            cycle <= c < |w.pages| && GetEvents(w.pages[c]) == Ok([])
    decreases |w.pages| - cycle, 1, 0
  {
    var read := GetLastRecordedDate(st.dir.checkpoint, w.clock(cycle));
    var asked := st.(trace := st.trace.(requests := st.trace.requests + [EventsEndpoint(w.user.id, read.value)]));
    var page := GetEvents(w.pages[cycle]);
    if page.value != [] {
      DoneOnlyAfterEvents(asked, page.value, cycle, w);
    }
  }

  lemma {:induction false} DoneOnlyAfterEvents(st: RunState, events: seq<ProjectEvent>, cycle: nat, w: World)
    requires cycle < |w.pages| && ProcessEvents(st, events, cycle, w).stop.Done?
    ensures var c := ProcessEvents(st, events, cycle, w).stop.cycle;
            cycle < c < |w.pages| && GetEvents(w.pages[c]) == Ok([])
    decreases |w.pages| - cycle, 0, |events|
  {
    if events == [] {
      DoneOnlyOnEmptyPage(st, cycle + 1, w);
    } else {
      DoneOnlyAfterEvents(Handle(st, events[0], w).state, events[1..], cycle, w);
    }
  }

  /**
   * A cycle whose page is empty ends the run and writes nothing, so a run
   * restarted on an unchanged feed leaves the directory as it was.
   */
  lemma EmptyPageChangesNothing(st: RunState, cycle: nat, w: World)
    requires cycle < |w.pages| && GetEvents(w.pages[cycle]) == Ok([])
    requires GetLastRecordedDate(st.dir.checkpoint, w.clock(cycle)).Ok?
    ensures RunFrom(st, cycle, w).stop == Done(cycle)
    ensures RunFrom(st, cycle, w).state.dir == st.dir
  {
  }

  /** A page of events that no case handles writes nothing, looks nothing up, and hands on to the next cycle. */
  lemma {:induction false} UnhandledPageKeepsState(st: RunState, events: seq<ProjectEvent>, cycle: nat, w: World)
    requires cycle < |w.pages|
    requires forall i :: 0 <= i < |events| ==> Classify(events[i]) == NotHandled
    ensures ProcessEvents(st, events, cycle, w) == RunFrom(st, cycle + 1, w)
    decreases |events|
  {
    if events != [] {
      NoLookupWithoutExpansion(st, events[0], w);
      UnhandledPageKeepsState(st, events[1..], cycle, w);
    }
  }

  /**
   * A cycle whose page holds only unhandled events records its request and
   * otherwise leaves the state to the next cycle as it found it.
   */
  lemma UnhandledCycle(st: RunState, cycle: nat, w: World, from: Time, events: seq<ProjectEvent>)
    requires cycle < |w.pages| && GetLastRecordedDate(st.dir.checkpoint, w.clock(cycle)) == Ok(from)
    requires GetEvents(w.pages[cycle]) == Ok(events) && events != []
    requires forall i :: 0 <= i < |events| ==> Classify(events[i]) == NotHandled
    ensures var asked := st.(trace := st.trace.(requests := st.trace.requests + [EventsEndpoint(w.user.id, from)]));
            RunFrom(st, cycle, w) == RunFrom(asked, cycle + 1, w)
  {
    var asked := st.(trace := st.trace.(requests := st.trace.requests + [EventsEndpoint(w.user.id, from)]));
    UnhandledPageKeepsState(asked, events, cycle, w);
  }

  /**
   * After a non-empty page of unhandled events, the checkpoint file is as it
   * was, so the next cycle sends the very request this one sent.
   */
  lemma UnhandledPageRepeatsRequest(st: RunState, cycle: nat, w: World, from: Time, events: seq<ProjectEvent>)
    requires cycle + 1 < |w.pages| && st.dir.checkpoint.Contents?
    requires GetLastRecordedDate(st.dir.checkpoint, w.clock(cycle)) == Ok(from)
    requires GetEvents(w.pages[cycle]) == Ok(events) && events != []
    requires forall i :: 0 <= i < |events| ==> Classify(events[i]) == NotHandled
    ensures var n, r := |st.trace.requests|, RunFrom(st, cycle, w).state.trace.requests;
            n + 1 < |r| && r[n] == EventsEndpoint(w.user.id, from) && r[n + 1] == r[n]
  {
    var url := EventsEndpoint(w.user.id, from);
    var asked := st.(trace := st.trace.(requests := st.trace.requests + [url]));
    UnhandledCycle(st, cycle, w, from, events);
    ContentsIgnoreClock(st.dir.checkpoint, w.clock(cycle), w.clock(cycle + 1));
    CycleAsksAfterCheckpoint(asked, cycle + 1, w, from);
    RunKeepsRequests(asked, cycle + 1, w);
    RequestAt(asked.trace.requests, RunFrom(asked, cycle + 1, w).state.trace.requests, |st.trace.requests|);
  }

  /** A sequence that extends another agrees with it at each of its positions. */
  lemma RequestAt(a: seq<string>, b: seq<string>, k: nat)
    requires a <= b && k < |a|
    ensures b[k] == a[k]
  {
  }

  // ----- The program -----

  /** `CreateGitCommit` at the next write number. */
  method Create(repo: TargetRepo, message: string, date: Time, w: World, trace: Trace)
    returns (trace': Trace, halt: Option<Halt>)
    modifies repo
    ensures Exec(RunState(repo.State(), trace'), halt)
            == ApplyStep(RunState(old(repo.State()), trace), Record(message, date), w)
  {
    var fault := w.faults(trace.writes);
    var ok := repo.CreateGitCommit(message, date, fault);
    trace' := trace.(writes := trace.writes + 1);
    halt := if ok then None else Some(WriteFault(fault.value));
  }

  /** The loop of `HandleMultipleCommits`: one `"created a commit"` record per commit, in order. */
  method RecordCommits(repo: TargetRepo, commits: seq<Commit>, w: World, trace: Trace)
    returns (trace': Trace, halt: Option<Halt>)
    modifies repo
    ensures Exec(RunState(repo.State(), trace'), halt)
            == ExecSteps(RunState(old(repo.State()), trace), Expansion(commits), w)
  {
    ghost var outcome := ExecSteps(RunState(repo.State(), trace), Expansion(commits), w);
    trace', halt := trace, None;
    var i := 0;
    while i < |commits|
      invariant 0 <= i <= |commits|
      invariant halt.None?
      invariant outcome == ExecSteps(RunState(repo.State(), trace'), Expansion(commits[i..]), w)
    {
      assert commits[i..][1..] == commits[i + 1..];
      ExecFirst(RunState(repo.State(), trace'), Record("created a commit", commits[i].authoredDate), Expansion(commits[i + 1..]), w);
      trace', halt := Create(repo, "created a commit", commits[i].authoredDate, w, trace');
      if halt.Some? {
        return;
      }
      i := i + 1;
    }
    assert commits[i..] == [];
    assert Expansion(commits[i..]) == [];
  }

  /** `HandleMultipleCommits`. */
  method HandleMultipleCommits(repo: TargetRepo, event: ProjectEvent, w: World, trace: Trace)
    returns (trace': Trace, halt: Option<Halt>)
    modifies repo
    ensures Exec(RunState(repo.State(), trace'), halt) == Expand(RunState(old(repo.State()), trace), event, w)
  {
    var q := CommitsQueryOf(event, w.user.commitEmail);
    trace' := trace.(lookups := trace.lookups + [q]);
    var found := GetCommitsBetween(event, w.user.commitEmail, w.commits);
    if found.Err? {
      return trace', Some(CommitsFailed(found.error));
    }
    var commits := found.value;
    ExecStepsAppend(RunState(repo.State(), trace'), Expansion(commits), [Checkpoint(event.createdAt)], w);
    trace', halt := RecordCommits(repo, commits, w, trace');
    if halt.Some? {
      return;
    }
    ExecSingle(RunState(repo.State(), trace'), Checkpoint(event.createdAt), w);
    var failed := w.faults(trace'.writes) == Some(CheckpointWriteFailed);
    var ok := repo.SetLastRecordedDate(event.createdAt, failed);
    trace' := trace'.(writes := trace'.writes + 1);
    halt := if ok then None else Some(WriteFault(CheckpointWriteFailed));
  }

  /** The body of the event loop: the `switch` on one event. */
  method HandleEvent(repo: TargetRepo, event: ProjectEvent, w: World, trace: Trace)
    returns (trace': Trace, halt: Option<Halt>)
    modifies repo
    ensures Exec(RunState(repo.State(), trace'), halt) == Handle(RunState(old(repo.State()), trace), event, w)
  {
    var action, count := event.actionName, event.pushData.commitCount;
    if action == "pushed new" && count == 1 {
      ExecSingle(RunState(repo.State(), trace), Record("pushed new branch", event.createdAt), w);
      trace', halt := Create(repo, "pushed new branch", event.createdAt, w, trace);
    } else if action == "pushed to" && count == 1 {
      ExecSingle(RunState(repo.State(), trace), Record("created a commit", event.createdAt), w);
      trace', halt := Create(repo, "created a commit", event.createdAt, w, trace);
    } else if action == "pushed new" {
      trace', halt := HandleMultipleCommits(repo, event, w, trace);
      if halt.None? {
        ExecSingle(RunState(repo.State(), trace'), Record("pushed new branch", event.createdAt), w);
        trace', halt := Create(repo, "pushed new branch", event.createdAt, w, trace');
      }
    } else if action == "pushed to" {
      trace', halt := HandleMultipleCommits(repo, event, w, trace);
    } else if action == "opened" && event.targetType == "MergeRequest" {
      ExecSingle(RunState(repo.State(), trace), Record("opened merge request", event.createdAt), w);
      trace', halt := Create(repo, "opened merge request", event.createdAt, w, trace);
    } else {
      // logged as not handled; the loop goes on
      trace', halt := trace, None;
    }
  }

  /** `main` after set-up: the outer loop over cycles and the inner loop over a page's events. */
  method Run(repo: TargetRepo, w: World) returns (trace: Trace, stop: Stop)
    modifies repo
    ensures Final(RunState(repo.State(), trace), stop) == RunFrom(RunState(old(repo.State()), Trace(0, [], [])), 0, w)
  {
    trace := Trace(0, [], []);
    ghost var outcome := RunFrom(RunState(repo.State(), trace), 0, w);
    var cycle := 0;
    while cycle < |w.pages|
      invariant cycle <= |w.pages|
      invariant outcome == RunFrom(RunState(repo.State(), trace), cycle, w)
      decreases |w.pages| - cycle
    {
      var read := GetLastRecordedDate(repo.checkpoint, w.clock(cycle));
      if read.Err? {
        return trace, Halted(CheckpointUnreadable(read.error));
      }
      trace := trace.(requests := trace.requests + [EventsEndpoint(w.user.id, read.value)]);
      var page := GetEvents(w.pages[cycle]);
      if page.Err? {
        return trace, Halted(EventsFailed(page.error));
      }
      var events := page.value;
      if |events| == 0 {
        return trace, Done(cycle);
      }
      var i := 0;
      while i < |events|
        invariant 0 <= i <= |events|
        invariant outcome == ProcessEvents(RunState(repo.State(), trace), events[i..], cycle, w)
      {
        assert events[i..][1..] == events[i + 1..];
        var halt;
        trace, halt := HandleEvent(repo, events[i], w, trace);
        if halt.Some? {
          return trace, Halted(halt.value);
        }
        i := i + 1;
      }
      assert events[i..] == [];
      cycle := cycle + 1;
    }
    stop := Exhausted;
  }
}
