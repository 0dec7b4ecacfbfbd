/**
  The store of provider runs: snapshots and event lists updated under a lock, and an
  event log on disk that is appended to after the lock is released.
*/
module RunStore {
  import opened Wrappers

  datatype Status = Running | Completed | Failed | Cancelled

  /** Provider events, up to what the store looks at. */
  datatype ProviderEvent =
    | SessionStarted(session: string)
    | TurnCompleted
    | TurnError(message: string)
    | Other(payload: string)

  datatype Snapshot = Snapshot(
    workspace: string, status: Status, finishedAt: Option<nat>, error: Option<string>, session: Option<string>)

  datatype Record = Record(sequence: nat, run: nat, event: ProviderEvent, at: nat)

  datatype Run = Run(snapshot: Snapshot, events: seq<Record>, nextSequence: nat)

  /** `apply_event_to_snapshot`. */
  function Apply(s: Snapshot, e: ProviderEvent, now: nat): Snapshot {
    match e
    case SessionStarted(session) => s.(session := Some(session))
    case TurnCompleted => if s.status == Running then s.(status := Completed, finishedAt := Some(now)) else s
    case TurnError(message) =>
      if s.status != Cancelled then s.(status := Failed, finishedAt := Some(now), error := Some(message)) else s
    case Other(_) => s
  }

  function Recorded(id: nat, run: Run, e: ProviderEvent, now: nat): Run {
    Run(Apply(run.snapshot, e, now), run.events + [Record(run.nextSequence, id, e, now)], run.nextSequence + 1)
  }

  function CancelledRun(run: Run, reason: Option<string>, now: nat): Run {
    if run.snapshot.status != Running then run
    else run.(snapshot := run.snapshot.(status := Cancelled, finishedAt := Some(now), error := reason))
  }

  function NewRun(workspace: string): Run { Run(Snapshot(workspace, Running, None, None, None), [], 1) }

  /** The runs referring to a workspace are active exactly while they are running. */
  function Active(runs: map<nat, Run>): set<string> {
    set id | id in runs && runs[id].snapshot.status == Running :: runs[id].snapshot.workspace
  }

  class Store {
    var runs: map<nat, Run>
    var counter: nat

    ghost predicate Valid()
      reads this
    {
      forall id :: id in runs ==> id < counter && RunOk(runs[id])
    }

    constructor ()
      ensures Valid() && runs == map[] && counter == 0
    {
      runs, counter := map[], 0;
    }

    method StartRun(workspace: string) returns (id: nat)
      requires Valid()
      modifies this
      ensures Valid() && id !in old(runs) && runs == old(runs)[id := NewRun(workspace)]
      ensures Active(runs) == Active(old(runs)) + {workspace}
    {
      id := counter;
      counter := counter + 1;
      ghost var before := runs;
      runs := runs[id := NewRun(workspace)];
      assert forall k :: k in before ==> k in runs && runs[k] == before[k];
      assert runs[id].snapshot.workspace == workspace;
    }

    /** `record_event` up to the release of the lock. */
    method RecordEvent(id: nat, e: ProviderEvent, now: nat) returns (r: Option<Record>)
      requires Valid()
      modifies this
      ensures Valid()
      ensures r.None? <==> id !in old(runs)
      ensures r.None? ==> runs == old(runs)
      ensures r.Some? ==>
                && runs == old(runs)[id := Recorded(id, old(runs)[id], e, now)]
                && r.value == Record(|old(runs)[id].events| + 1, id, e, now)
                && runs[id].events == old(runs)[id].events + [r.value]
                && Up(old(runs)[id].snapshot.status, runs[id].snapshot.status)
    {
      if id !in runs { return None; }
      var run := runs[id];
      RecordedOk(id, run, e, now);
      var record := Record(run.nextSequence, id, e, now);
      run := run.(snapshot := Apply(run.snapshot, e, now));
      run := run.(nextSequence := run.nextSequence + 1);
      run := run.(events := run.events + [record]);
      runs := runs[id := run];
      r := Some(record);
    }

    /** `cancel_run`: only a running run is cancelled. */
    method CancelRun(id: nat, reason: Option<string>, now: nat) returns (found: bool)
      requires Valid()
      modifies this
      ensures Valid() && found == (id in old(runs))
      ensures runs == if found then old(runs)[id := CancelledRun(old(runs)[id], reason, now)] else old(runs)
    {
      found := id in runs;
      if found {
        var run := runs[id];
        if run.snapshot.status == Running {
          run := run.(snapshot := run.snapshot.(status := Cancelled, finishedAt := Some(now), error := reason));
          runs := runs[id := run];
        } else {
          assert runs[id := run] == runs;
        }
      }
    }

    method ActiveWorkspaces() returns (active: set<string>)
      ensures active == Active(runs)
    {
      active := set id | id in runs && runs[id].snapshot.status == Running :: runs[id].snapshot.workspace;
    }
  }

  /** Sequences run from one without gaps, and a finish time is there exactly when the run is over. */
  ghost predicate RunOk(run: Run) {
    && run.nextSequence == |run.events| + 1
    && (forall i :: 0 <= i < |run.events| ==> run.events[i].sequence == i + 1)
    && (run.snapshot.finishedAt.Some? <==> run.snapshot.status != Running)
  }

  /** The only ways a status may move. */
  predicate Up(a: Status, b: Status) { a == b || a == Running || (a == Completed && b == Failed) }

  lemma RecordedOk(id: nat, run: Run, e: ProviderEvent, now: nat)
    requires RunOk(run)
    ensures RunOk(Recorded(id, run, e, now)) && Up(run.snapshot.status, Recorded(id, run, e, now).snapshot.status)
  {
  }

  // ---------------------------------------------------------------------------
  // Concurrent use, and the log on disk
  // ---------------------------------------------------------------------------

  /** What is appended to a log file: a record's text, and the line break after it, in two writes. */
  datatype Chunk = Text(record: Record) | Break

  /**
    No lock is held while a record is appended. `pending`: records whose text is still to
    come; `half`: records whose line break is; `torn`: records whose line break failed.
  */
  datatype World = World(
    runs: map<nat, Run>, counter: nat,
    pending: set<Record>, half: set<Record>, torn: set<Record>, log: map<nat, seq<Chunk>>)

  const FRESH: World := World(map[], 0, {}, {}, {}, map[])

  datatype Step =
    | Start(workspace: string)
    | Recording(id: nat, event: ProviderEvent, at: nat)
    | WritesText(record: Record, ok: bool)
    | WritesBreak(record: Record, ok: bool)
    | Cancelling(id: nat, reason: Option<string>, at: nat)

  function LogOf(w: World, id: nat): seq<Chunk> { if id in w.log then w.log[id] else [] }

  function Next(w: World, s: Step): World {
    match s
    case Start(workspace) => w.(runs := w.runs[w.counter := NewRun(workspace)], counter := w.counter + 1)
    case Recording(id, e, at) =>
      if id !in w.runs then w
      else w.(runs := w.runs[id := Recorded(id, w.runs[id], e, at)],
              pending := w.pending + {Record(w.runs[id].nextSequence, id, e, at)})
    case WritesText(r, ok) =>
      if r !in w.pending then w
      else if !ok then w.(pending := w.pending - {r})
      else w.(pending := w.pending - {r}, half := w.half + {r}, log := w.log[r.run := LogOf(w, r.run) + [Text(r)]])
    case WritesBreak(r, ok) =>
      if r !in w.half then w
      else if !ok then w.(half := w.half - {r}, torn := w.torn + {r})
      else w.(half := w.half - {r}, log := w.log[r.run := LogOf(w, r.run) + [Break]])
    case Cancelling(id, reason, at) =>
      if id in w.runs then w.(runs := w.runs[id := CancelledRun(w.runs[id], reason, at)]) else w
  }

  /** A record belongs to its run's list, at the place its sequence names. */
  ghost predicate Belongs(runs: map<nat, Run>, r: Record) {
    r.run in runs && 1 <= r.sequence <= |runs[r.run].events| && runs[r.run].events[r.sequence - 1] == r
  }

  ghost predicate RunsOk(w: World) { forall id :: id in w.runs ==> id < w.counter && RunOk(w.runs[id]) }

  /** Everything still to be written, or written, was recorded; and nothing twice. */
  ghost predicate LogOk(w: World) {
    && (forall r :: r in w.pending ==> Belongs(w.runs, r))
    && (forall id, i :: id in w.log && 0 <= i < |w.log[id]| && w.log[id][i].Text? ==>
          var r := w.log[id][i].record; r.run == id && Belongs(w.runs, r) && r !in w.pending)
    && (forall id, i, j :: id in w.log && 0 <= i < j < |w.log[id]| && w.log[id][i].Text? ==>
          w.log[id][i] != w.log[id][j])
  }

  ghost predicate Inv(w: World) { RunsOk(w) && LogOk(w) }

  ghost predicate IsRun(worlds: seq<World>, steps: seq<Step>) {
    && |worlds| == |steps| + 1 && Inv(worlds[0])
    && forall i :: 0 <= i < |steps| ==> worlds[i + 1] == Next(worlds[i], steps[i])
  }

  lemma StepKeepsRuns(w: World, s: Step)
    requires RunsOk(w)
    ensures RunsOk(Next(w, s))
    ensures forall id :: id in w.runs ==>
              id in Next(w, s).runs && Up(w.runs[id].snapshot.status, Next(w, s).runs[id].snapshot.status)
    ensures forall id :: id in w.runs ==> w.runs[id].events <= Next(w, s).runs[id].events
  {
    if s.Recording? && s.id in w.runs { RecordedOk(s.id, w.runs[s.id], s.event, s.at); }
  }

  lemma BelongsGrows(w: World, s: Step)
    requires RunsOk(w)
    ensures forall r :: Belongs(w.runs, r) ==> Belongs(Next(w, s).runs, r)
  {
    StepKeepsRuns(w, s);
    forall r | Belongs(w.runs, r) ensures Belongs(Next(w, s).runs, r) {
      assert w.runs[r.run].events <= Next(w, s).runs[r.run].events;
    }
  }

  lemma RecordingKeeps(w: World, id: nat, e: ProviderEvent, at: nat)
    requires Inv(w) && id in w.runs
    ensures LogOk(Next(w, Recording(id, e, at)))
  {
    BelongsGrows(w, Recording(id, e, at));
    var t := Next(w, Recording(id, e, at));
    var added := Record(w.runs[id].nextSequence, id, e, at);
    assert !Belongs(w.runs, added) && Belongs(t.runs, added);
  }

  lemma TextKeeps(w: World, r: Record)
    requires Inv(w) && r in w.pending
    ensures LogOk(Next(w, WritesText(r, true)))
  {
    var t := Next(w, WritesText(r, true));
    assert t.runs == w.runs;
    forall id, i, j | id in t.log && 0 <= i < j < |t.log[id]| && t.log[id][i].Text?
      ensures t.log[id][i] != t.log[id][j]
    {
      if id == r.run && j == |LogOf(w, id)| {
        assert t.log[id][j] == Text(r) && w.log[id][i].record !in w.pending;
      }
    }
  }

  lemma BreakKeeps(w: World, r: Record)
    requires Inv(w) && r in w.half
    ensures LogOk(Next(w, WritesBreak(r, true)))
  {
    assert Next(w, WritesBreak(r, true)).runs == w.runs;
  }

  lemma StepKeeps(w: World, s: Step)
    requires Inv(w)
    ensures Inv(Next(w, s))
  {
    StepKeepsRuns(w, s);
    match s
    case Recording(id, e, at) => if id in w.runs { RecordingKeeps(w, id, e, at); }
    case WritesText(r, ok) => if r in w.pending && ok { TextKeeps(w, r); }
    case WritesBreak(r, ok) => if r in w.half && ok { BreakKeeps(w, r); }
    case _ => BelongsGrows(w, s);
  }

  /** Over every interleaving: all invariants hold, and a status only ever moves up. */
  lemma {:induction false} RunsMoveUp(worlds: seq<World>, steps: seq<Step>, i: nat, j: nat, id: nat)
    requires IsRun(worlds, steps) && i <= j < |worlds|
    ensures Inv(worlds[i]) && Inv(worlds[j])
    ensures id in worlds[i].runs ==>
              id in worlds[j].runs && Up(worlds[i].runs[id].snapshot.status, worlds[j].runs[id].snapshot.status)
              && worlds[i].runs[id].events <= worlds[j].runs[id].events
    decreases j
  {
    if i < j {
      RunsMoveUp(worlds, steps, i, j - 1, id);
      StepKeeps(worlds[j - 1], steps[j - 1]);
      StepKeepsRuns(worlds[j - 1], steps[j - 1]);
    } else if i > 0 {
      RunsMoveUp(worlds, steps, i - 1, i - 1, id);
      StepKeeps(worlds[i - 1], steps[i - 1]);
    }
  }

  /** A run that is over never becomes active again; a failed or cancelled run never changes status. */
  lemma OverIsOver(worlds: seq<World>, steps: seq<Step>, i: nat, j: nat, id: nat)
    requires IsRun(worlds, steps) && i <= j < |worlds| && id in worlds[i].runs
    requires worlds[i].runs[id].snapshot.status != Running
    ensures id in worlds[j].runs && worlds[j].runs[id].snapshot.status != Running
    ensures worlds[i].runs[id].snapshot.status in {Failed, Cancelled} ==>
              worlds[j].runs[id].snapshot.status == worlds[i].runs[id].snapshot.status
  {
    RunsMoveUp(worlds, steps, i, j, id);
  }

  lemma CompletedStep(w: World, s: Step, id: nat)
    requires id in w.runs && id < w.counter
    ensures id in Next(w, s).runs
    ensures w.runs[id].snapshot.status == Completed ==>
              (Next(w, s).runs[id].snapshot.status == if IsError(s, id) then Failed else Completed)
    ensures w.runs[id].snapshot.status == Failed ==> Next(w, s).runs[id].snapshot.status == Failed
  {
  }

  /** A completed run stays completed exactly until an error is recorded for it, and then it has failed. */
  lemma {:induction false} CompletedStaysIff(worlds: seq<World>, steps: seq<Step>, i: nat, j: nat, id: nat)
    requires IsRun(worlds, steps) && i <= j < |worlds| && id in worlds[i].runs
    requires worlds[i].runs[id].snapshot.status == Completed
    ensures id in worlds[j].runs
    ensures worlds[j].runs[id].snapshot.status
            == if exists k :: i <= k < j && IsError(steps[k], id) then Failed else Completed
    decreases j
  {
    if i < j {
      CompletedStaysIff(worlds, steps, i, j - 1, id);
      RunsMoveUp(worlds, steps, j - 1, j - 1, id);
      CompletedStep(worlds[j - 1], steps[j - 1], id);
    }
  }

  predicate IsError(s: Step, id: nat) { s.Recording? && s.id == id && s.event.TurnError? }

  // ---------------------------------------------------------------------------
  // What becomes of a run
  // ---------------------------------------------------------------------------

  predicate IsCompletion(s: Step, id: nat) { s.Recording? && s.id == id && s.event.TurnCompleted? }

  predicate IsCancel(s: Step, id: nat) { s.Cancelling? && s.id == id }

  predicate IsSession(s: Step, id: nat) { s.Recording? && s.id == id && s.event.SessionStarted? }

  predicate Decides(s: Step, id: nat) { IsCompletion(s, id) || IsError(s, id) || IsCancel(s, id) }

  /** The first step after `i` and before `j` that decides about the run. */
  function FirstDecision(steps: seq<Step>, id: nat, i: nat, j: nat): (k: Option<nat>)
    requires i < j <= |steps|
    ensures k.None? ==> forall m :: i < m < j ==> !Decides(steps[m], id)
    ensures k.Some? ==>
              i < k.value < j && Decides(steps[k.value], id) && forall m :: i < m < k.value ==> !Decides(steps[m], id)
    decreases j
  {
    if j == i + 1 then None
    else
      var before := FirstDecision(steps, id, i, j - 1);
      if before.Some? then before else if Decides(steps[j - 1], id) then Some(j - 1) else None
  }

  /** The last error after `i` and before `j`. */
  function LastError(steps: seq<Step>, id: nat, i: nat, j: nat): (k: Option<nat>)
    requires i < j <= |steps|
    ensures k.None? ==> forall m :: i < m < j ==> !IsError(steps[m], id)
    ensures k.Some? ==>
              i < k.value < j && IsError(steps[k.value], id) && forall m :: k.value < m < j ==> !IsError(steps[m], id)
    decreases j
  {
    if j == i + 1 then None
    else if IsError(steps[j - 1], id) then Some(j - 1)
    else LastError(steps, id, i, j - 1)
  }

  /** The last session started after `i` and before `j`. */
  function LastSession(steps: seq<Step>, id: nat, i: nat, j: nat): (k: Option<nat>)
    requires i < j <= |steps|
    ensures k.None? ==> forall m :: i < m < j ==> !IsSession(steps[m], id)
    ensures k.Some? ==>
              && i < k.value < j && IsSession(steps[k.value], id)
              && forall m :: k.value < m < j ==> !IsSession(steps[m], id)
    decreases j
  {
    if j == i + 1 then None
    else if IsSession(steps[j - 1], id) then Some(j - 1)
    else LastSession(steps, id, i, j - 1)
  }

  /**
    What the steps after a start at `i` and before `j` say the run is: running until a
    completion, an error or a cancel comes; the first of these decides; an error after a
    completion makes it failed, with the time and message of the last one; the session is the
    last one started.
  */
  function Outcome(workspace: string, steps: seq<Step>, id: nat, i: nat, j: nat): Snapshot
    requires i < j <= |steps|
  {
    var started := LastSession(steps, id, i, j);
    var session := if started.Some? then Some(steps[started.value].event.session) else None;
    var decision, error := FirstDecision(steps, id, i, j), LastError(steps, id, i, j);
    if decision.None? then Snapshot(workspace, Running, None, None, session)
    else
      var first := steps[decision.value];
      if first.Cancelling? then Snapshot(workspace, Cancelled, Some(first.at), first.reason, session)
      else if error.None? then Snapshot(workspace, Completed, Some(first.at), None, session)
      else
        var last := steps[error.value];
        Snapshot(workspace, Failed, Some(last.at), Some(last.event.message), session)
  }

  /** How one step moves a snapshot. */
  function Moved(s: Snapshot, step: Step, id: nat): Snapshot {
    if step.Recording? && step.id == id then Apply(s, step.event, step.at)
    else if IsCancel(step, id) && s.status == Running then
      s.(status := Cancelled, finishedAt := Some(step.at), error := step.reason)
    else s
  }

  lemma SnapshotAt(worlds: seq<World>, steps: seq<Step>, m: nat, id: nat)
    requires IsRun(worlds, steps) && m < |steps| && id in worlds[m].runs
    ensures id in worlds[m + 1].runs
    ensures worlds[m + 1].runs[id].snapshot == Moved(worlds[m].runs[id].snapshot, steps[m], id)
  {
    RunsMoveUp(worlds, steps, m, m, id);
    assert worlds[m + 1] == Next(worlds[m], steps[m]);
  }

  lemma OutcomeMoves(workspace: string, steps: seq<Step>, id: nat, i: nat, j: nat)
    requires i < j < |steps|
    ensures Outcome(workspace, steps, id, i, j + 1) == Moved(Outcome(workspace, steps, id, i, j), steps[j], id)
  {
  }

  function SnapshotOf(w: World, id: nat): Option<Snapshot> { if id in w.runs then Some(w.runs[id].snapshot) else None }

  lemma OutcomeAtStart(worlds: seq<World>, steps: seq<Step>, i: nat)
    requires IsRun(worlds, steps) && i < |steps| && steps[i].Start?
    ensures var id := worlds[i].counter;
            SnapshotOf(worlds[i + 1], id) == Some(Outcome(steps[i].workspace, steps, id, i, i + 1))
  {
    assert worlds[i + 1] == Next(worlds[i], steps[i]);
  }

  lemma OutcomeOn(worlds: seq<World>, steps: seq<Step>, workspace: string, id: nat, i: nat, m: nat)
    requires IsRun(worlds, steps) && i < m < |steps|
    requires SnapshotOf(worlds[m], id) == Some(Outcome(workspace, steps, id, i, m))
    ensures SnapshotOf(worlds[m + 1], id) == Some(Outcome(workspace, steps, id, i, m + 1))
  {
    SnapshotAt(worlds, steps, m, id);
    OutcomeMoves(workspace, steps, id, i, m);
  }

  /** Over every interleaving, a run is at every point what the steps since its start say. */
  lemma RunOutcome(worlds: seq<World>, steps: seq<Step>, i: nat, j: nat)
    requires IsRun(worlds, steps) && i < j < |worlds| && steps[i].Start?
    ensures var id := worlds[i].counter;
            SnapshotOf(worlds[j], id) == Some(Outcome(steps[i].workspace, steps, id, i, j))
  {
    var id, workspace := worlds[i].counter, steps[i].workspace;
    OutcomeAtStart(worlds, steps, i);
    for m := i + 1 to j
      invariant SnapshotOf(worlds[m], id) == Some(Outcome(workspace, steps, id, i, m))
    {
      OutcomeOn(worlds, steps, workspace, id, i, m);
    }
  }

  // ---------------------------------------------------------------------------
  // The order of the log
  // ---------------------------------------------------------------------------

  /** Step `k` puts the text of `r` into its log. */
  ghost predicate Logs(worlds: seq<World>, steps: seq<Step>, k: nat, r: Record) {
    k < |steps| && k < |worlds| && steps[k] == WritesText(r, true) && r in worlds[k].pending
  }

  ghost predicate Ordered(log: seq<Chunk>) {
    forall i, j :: 0 <= i < j < |log| && log[i].Text? && log[j].Text? ==>
      log[i].record.sequence < log[j].record.sequence
  }

  /** `q` waited while the later `r` was logged, and was logged after it. */
  ghost predicate Overtakes(worlds: seq<World>, steps: seq<Step>, k: nat, m: nat, r: Record, q: Record) {
    k < m && Logs(worlds, steps, k, r) && Logs(worlds, steps, m, q)
    && r.run == q.run && q.sequence < r.sequence && q in worlds[k].pending
  }

  /** A record that waits has waited since it was recorded. */
  lemma {:induction false} WaitedSince(worlds: seq<World>, steps: seq<Step>, k: nat, m: nat, q: Record)
    requires IsRun(worlds, steps) && k <= m < |worlds| && q in worlds[m].pending && Belongs(worlds[k].runs, q)
    ensures q in worlds[k].pending
    decreases m
  {
    if k < m {
      RunsMoveUp(worlds, steps, k, m - 1, q.run);
      RunsMoveUp(worlds, steps, m - 1, m - 1, q.run);
      var w, s := worlds[m - 1], steps[m - 1];
      assert worlds[m] == Next(w, s) && Belongs(w.runs, q);
      if s.Recording? && s.id in w.runs {
        assert !Belongs(w.runs, Record(w.runs[s.id].nextSequence, s.id, s.event, s.at));
      }
      WaitedSince(worlds, steps, k, m - 1, q);
    }
  }

  /** Every text in a log was put there by some step. */
  lemma {:induction false} LoggedBy(worlds: seq<World>, steps: seq<Step>, j: nat, r: Record) returns (k: nat)
    requires IsRun(worlds, steps) && worlds[0] == FRESH && j < |worlds| && Text(r) in LogOf(worlds[j], r.run)
    ensures k < j && Logs(worlds, steps, k, r)
    decreases j
  {
    assert j > 0 && worlds[j] == Next(worlds[j - 1], steps[j - 1]);
    if Text(r) in LogOf(worlds[j - 1], r.run) {
      k := LoggedBy(worlds, steps, j - 1, r);
    } else {
      k := j - 1;
    }
  }

  /** And every text that was put there stays. */
  lemma {:induction false} LogGrows(worlds: seq<World>, steps: seq<Step>, k: nat, j: nat, id: nat)
    requires IsRun(worlds, steps) && k <= j < |worlds|
    ensures LogOf(worlds[k], id) <= LogOf(worlds[j], id)
    decreases j
  {
    if k < j {
      LogGrows(worlds, steps, k, j - 1, id);
      assert worlds[j] == Next(worlds[j - 1], steps[j - 1]);
    }
  }

  /** A later record than `q` is in the log already. */
  ghost predicate Behind(log: seq<Chunk>, q: Record) {
    exists i :: 0 <= i < |log| && log[i].Text? && log[i].record.sequence > q.sequence
  }

  lemma BehindIsOvertaken(worlds: seq<World>, steps: seq<Step>, m: nat, q: Record) returns (k: nat, r: Record)
    requires IsRun(worlds, steps) && worlds[0] == FRESH
    requires Logs(worlds, steps, m, q) && Behind(LogOf(worlds[m], q.run), q)
    ensures Overtakes(worlds, steps, k, m, r, q)
  {
    var log := LogOf(worlds[m], q.run);
    RunsMoveUp(worlds, steps, m, m, q.run);
    var i :| 0 <= i < |log| && log[i].Text? && log[i].record.sequence > q.sequence;
    r := log[i].record;
    assert r.run == q.run && Text(r) in log;
    k := LoggedBy(worlds, steps, m, r);
    RunsMoveUp(worlds, steps, k, m, q.run);
    BelongedBefore(worlds[k], worlds[m], r, q);
    WaitedSince(worlds, steps, k, m, q);
  }

  lemma OvertakenIsBehind(worlds: seq<World>, steps: seq<Step>, k: nat, m: nat, r: Record, q: Record)
    requires IsRun(worlds, steps) && Overtakes(worlds, steps, k, m, r, q)
    ensures Behind(LogOf(worlds[m], q.run), q)
  {
    LogGrows(worlds, steps, k + 1, m, q.run);
    var at := LogOf(worlds[k + 1], q.run);
    assert worlds[k + 1] == Next(worlds[k], steps[k]);
    assert at[|at| - 1] == Text(r) && LogOf(worlds[m], q.run)[|at| - 1] == Text(r);
  }

  /** Records of one run are recorded in sequence. */
  lemma BelongedBefore(early: World, late: World, r: Record, q: Record)
    requires Inv(early) && Belongs(early.runs, r) && Belongs(late.runs, q) && r.run == q.run && q.sequence <= r.sequence
    requires early.runs[r.run].events <= late.runs[r.run].events
    ensures Belongs(early.runs, q)
  {
    assert early.runs[r.run].events[q.sequence - 1] == late.runs[r.run].events[q.sequence - 1];
  }

  lemma OrderedSnoc(log: seq<Chunk>, c: Chunk)
    ensures Ordered(log + [c]) <==>
            Ordered(log)
            && (c.Text? ==> forall i :: 0 <= i < |log| && log[i].Text? ==> log[i].record.sequence < c.record.sequence)
  {
    var all := log + [c];
    assert all[|log|] == c && forall i :: 0 <= i < |log| ==> all[i] == log[i];
    if Ordered(all) {
      forall i, j | 0 <= i < j < |log| && log[i].Text? && log[j].Text?
        ensures log[i].record.sequence < log[j].record.sequence
      {
        assert all[i].Text?;
      }
    }
  }

  /** The step writes a text of run `id` behind a later one. */
  ghost predicate Misplaces(w: World, s: Step, id: nat) {
    s.WritesText? && s.ok && s.record in w.pending && s.record.run == id && Behind(LogOf(w, id), s.record)
  }

  lemma OrderedStep(w: World, s: Step, id: nat)
    requires Inv(w)
    ensures Ordered(LogOf(Next(w, s), id)) <==>
            Ordered(LogOf(w, id)) && !Misplaces(w, s, id)
  {
    var log := LogOf(w, id);
    if s.WritesText? && s.ok && s.record in w.pending && s.record.run == id {
      OrderedSnoc(log, Text(s.record));
      forall i | 0 <= i < |log| && log[i].Text? ensures log[i].record.sequence != s.record.sequence {
        SequencesDiffer(w, log[i].record, s.record);
      }
    } else if LogOf(Next(w, s), id) != log {
      OrderedSnoc(log, Break);
    }
  }

  lemma OrderedStepOf(worlds: seq<World>, steps: seq<Step>, m: nat, id: nat)
    requires IsRun(worlds, steps) && m < |steps|
    ensures Ordered(LogOf(worlds[m + 1], id)) <==>
            Ordered(LogOf(worlds[m], id)) && !Misplaces(worlds[m], steps[m], id)
  {
    RunsMoveUp(worlds, steps, m, m, id);
    OrderedStep(worlds[m], steps[m], id);
  }

  /** No record of run `id` was overtaken before step `j`. */
  ghost predicate NoneOvertaken(worlds: seq<World>, steps: seq<Step>, j: nat, id: nat) {
    forall k: nat, m: nat, r, q :: m < j && Overtakes(worlds, steps, k, m, r, q) ==> q.run != id
  }

  lemma NoneOvertakenStep(worlds: seq<World>, steps: seq<Step>, m: nat, id: nat)
    requires IsRun(worlds, steps) && worlds[0] == FRESH && m < |steps|
    ensures NoneOvertaken(worlds, steps, m + 1, id) <==>
            NoneOvertaken(worlds, steps, m, id) && !Misplaces(worlds[m], steps[m], id)
  {
    if steps[m].WritesText? && Logs(worlds, steps, m, steps[m].record) && steps[m].record.run == id {
      var q := steps[m].record;
      if Behind(LogOf(worlds[m], id), q) {
        var k, r := BehindIsOvertaken(worlds, steps, m, q);
        assert !NoneOvertaken(worlds, steps, m + 1, id);
      } else {
        forall k: nat, r | Overtakes(worlds, steps, k, m, r, q) ensures false {
          OvertakenIsBehind(worlds, steps, k, m, r, q);
        }
      }
    }
  }

  ghost predicate NoneMisplaced(worlds: seq<World>, steps: seq<Step>, j: nat, id: nat)
    requires j <= |steps| && j <= |worlds|
  {
    j == 0 || (NoneMisplaced(worlds, steps, j - 1, id) && !Misplaces(worlds[j - 1], steps[j - 1], id))
  }

  lemma {:induction false} OrderedUnlessMisplaced(worlds: seq<World>, steps: seq<Step>, j: nat, id: nat)
    requires IsRun(worlds, steps) && worlds[0] == FRESH && j < |worlds|
    ensures Ordered(LogOf(worlds[j], id)) <==> NoneMisplaced(worlds, steps, j, id)
    decreases j
  {
    if j > 0 {
      OrderedUnlessMisplaced(worlds, steps, j - 1, id);
      OrderedStepOf(worlds, steps, j - 1, id);
    }
  }

  lemma {:induction false} MisplacedIsOvertaken(worlds: seq<World>, steps: seq<Step>, j: nat, id: nat)
    requires IsRun(worlds, steps) && worlds[0] == FRESH && j < |worlds|
    ensures NoneMisplaced(worlds, steps, j, id) <==> NoneOvertaken(worlds, steps, j, id)
    decreases j
  {
    if j > 0 {
      MisplacedIsOvertaken(worlds, steps, j - 1, id);
      NoneOvertakenStep(worlds, steps, j - 1, id);
    }
  }

  /** The log of a run is in sequence order exactly when no record was overtaken on its way there. */
  lemma OrderedIff(worlds: seq<World>, steps: seq<Step>, j: nat, id: nat)
    requires IsRun(worlds, steps) && worlds[0] == FRESH && j < |worlds|
    ensures Ordered(LogOf(worlds[j], id)) <==> NoneOvertaken(worlds, steps, j, id)
  {
    OrderedUnlessMisplaced(worlds, steps, j, id);
    MisplacedIsOvertaken(worlds, steps, j, id);
  }

  lemma SequencesDiffer(w: World, r: Record, q: Record)
    requires Belongs(w.runs, r) && Belongs(w.runs, q) && r.run == q.run && r != q
    ensures r.sequence != q.sequence
  {
  }

  // ---------------------------------------------------------------------------
  // The lines of the log
  // ---------------------------------------------------------------------------

  /** Each text is followed by its line break, except perhaps the last. */
  predicate Lined(log: seq<Chunk>) {
    forall i :: 0 <= i < |log| ==> (log[i].Text? <==> i % 2 == 0)
  }

  /** A text of run `id` has no line break yet. */
  ghost predicate Open(w: World, id: nat) { exists r :: (r in w.half || r in w.torn) && r.run == id }

  /** While the lines are whole, at most the last text is open, and its record says so. */
  ghost predicate LinesOk(w: World, id: nat) {
    var log := LogOf(w, id);
    Lined(log) ==>
      && (|log| % 2 == 1 <==> Open(w, id))
      && (forall r :: (r in w.half || r in w.torn) && r.run == id ==> log != [] && log[|log| - 1] == Text(r))
      && (forall r :: r in w.half && r.run == id ==> r !in w.torn)
  }

  lemma LinedSnoc(log: seq<Chunk>, c: Chunk)
    ensures Lined(log + [c]) <==> Lined(log) && (c.Text? <==> |log| % 2 == 0)
  {
    var all := log + [c];
    assert all[|log|] == c && forall i :: 0 <= i < |log| ==> all[i] == log[i];
    if Lined(all) {
      forall i | 0 <= i < |log| ensures log[i].Text? <==> i % 2 == 0 { assert all[i].Text? <==> i % 2 == 0; }
    }
  }

  /** The step writes a text of run `id` while another has no line break. */
  ghost predicate Crowds(w: World, s: Step, id: nat) {
    s.WritesText? && s.ok && s.record in w.pending && s.record.run == id && Open(w, id)
  }

  lemma StepKeepsLines(w: World, s: Step, id: nat)
    requires Inv(w) && LinesOk(w, id)
    ensures LinesOk(Next(w, s), id)
    ensures Lined(LogOf(Next(w, s), id)) <==>
            Lined(LogOf(w, id)) && !Crowds(w, s, id)
  {
    var t, log := Next(w, s), LogOf(w, id);
    if s.WritesText? && s.ok && s.record in w.pending && s.record.run == id {
      LinedSnoc(log, Text(s.record));
      assert s.record in t.half;
    } else if s.WritesBreak? && s.record in w.half && s.record.run == id {
      LinedSnoc(log, Break);
      if Lined(log) {
        assert Open(w, id) && log[|log| - 1] == Text(s.record);
        if !s.ok { assert s.record in t.torn; }
      }
    } else {
      assert LogOf(t, id) == log;
      assert forall r: Record :: r.run == id ==> (r in t.half <==> r in w.half) && (r in t.torn <==> r in w.torn);
    }
  }

  lemma {:induction false} LinesHold(worlds: seq<World>, steps: seq<Step>, j: nat, id: nat)
    requires IsRun(worlds, steps) && worlds[0] == FRESH && j < |worlds|
    ensures Inv(worlds[j]) && LinesOk(worlds[j], id)
    decreases j
  {
    RunsMoveUp(worlds, steps, j, j, id);
    if j > 0 {
      LinesHold(worlds, steps, j - 1, id);
      StepKeepsLines(worlds[j - 1], steps[j - 1], id);
    }
  }

  lemma LinedStepOf(worlds: seq<World>, steps: seq<Step>, m: nat, id: nat)
    requires IsRun(worlds, steps) && worlds[0] == FRESH && m < |steps|
    ensures Lined(LogOf(worlds[m + 1], id)) <==> Lined(LogOf(worlds[m], id)) && !Crowds(worlds[m], steps[m], id)
  {
    LinesHold(worlds, steps, m, id);
    StepKeepsLines(worlds[m], steps[m], id);
  }

  ghost predicate NoneCrowds(worlds: seq<World>, steps: seq<Step>, j: nat, id: nat)
    requires j <= |steps| && j <= |worlds|
  {
    forall k :: 0 <= k < j ==> !Crowds(worlds[k], steps[k], id)
  }

  lemma NoneCrowdsSnoc(worlds: seq<World>, steps: seq<Step>, m: nat, id: nat)
    requires m < |steps| && m < |worlds|
    ensures NoneCrowds(worlds, steps, m + 1, id) <==>
            NoneCrowds(worlds, steps, m, id) && !Crowds(worlds[m], steps[m], id)
  {
  }

  /** The lines of a log are whole exactly when no text was written while another had no line break yet. */
  lemma {:induction false} LinedIff(worlds: seq<World>, steps: seq<Step>, j: nat, id: nat)
    requires IsRun(worlds, steps) && worlds[0] == FRESH && j < |worlds|
    ensures Lined(LogOf(worlds[j], id)) <==> NoneCrowds(worlds, steps, j, id)
    decreases j
  {
    if j > 0 {
      LinedIff(worlds, steps, j - 1, id);
      LinedStepOf(worlds, steps, j - 1, id);
      NoneCrowdsSnoc(worlds, steps, j - 1, id);
    }
  }

  // ---------------------------------------------------------------------------
  // One recorder at a time
  // ---------------------------------------------------------------------------

  /** A record of run `id` is on its way to the log. */
  ghost predicate InFlight(w: World, id: nat, r: Record) { r.run == id && (r in w.pending || r in w.half) }

  /** Events of run `id` are recorded one at a time, each append awaited. */
  ghost predicate Awaits(worlds: seq<World>, steps: seq<Step>, id: nat)
    requires |worlds| == |steps| + 1
  {
    forall k, r :: 0 <= k < |steps| && steps[k].Recording? && steps[k].id == id ==> !InFlight(worlds[k], id, r)
  }

  lemma {:induction false} OneInFlight(worlds: seq<World>, steps: seq<Step>, j: nat, id: nat, r: Record, q: Record)
    requires IsRun(worlds, steps) && worlds[0] == FRESH && Awaits(worlds, steps, id) && j < |worlds|
    requires InFlight(worlds[j], id, r) && InFlight(worlds[j], id, q)
    ensures r == q && !(r in worlds[j].pending && r in worlds[j].half)
    decreases j
  {
    assert j > 0 && worlds[j] == Next(worlds[j - 1], steps[j - 1]);
    var w, s := worlds[j - 1], steps[j - 1];
    if s.Recording? && s.id == id && s.id in w.runs {
      assert !InFlight(w, id, r) && !InFlight(w, id, q);
    } else {
      assert InFlight(w, id, r) && InFlight(w, id, q);
      OneInFlight(worlds, steps, j - 1, id, r, q);
    }
  }

  /** Such a log is in order, and its lines are whole unless a line break failed. */
  lemma AwaitedLogIsGood(worlds: seq<World>, steps: seq<Step>, j: nat, id: nat)
    requires IsRun(worlds, steps) && worlds[0] == FRESH && Awaits(worlds, steps, id) && j < |worlds|
    ensures Ordered(LogOf(worlds[j], id))
    ensures (forall k, r :: 0 <= k < j && r in worlds[k].torn ==> r.run != id) ==> Lined(LogOf(worlds[j], id))
  {
    forall k: nat, m: nat, r, q | m < j && Overtakes(worlds, steps, k, m, r, q) ensures q.run != id {
      if q.run == id { OneInFlight(worlds, steps, k, id, r, q); }
    }
    OrderedIff(worlds, steps, j, id);
    LinedIff(worlds, steps, j, id);
    if forall k, r :: 0 <= k < j && r in worlds[k].torn ==> r.run != id {
      forall k | 0 <= k < j ensures !Crowds(worlds[k], steps[k], id) {
        if Crowds(worlds[k], steps[k], id) {
          var q :| (q in worlds[k].half || q in worlds[k].torn) && q.run == id;
          OneInFlight(worlds, steps, k, id, steps[k].record, q);
          assert false;
        }
      }
    }
  }

  /** Without waiting, two appends can overtake each other and share a line. */
  lemma AppendsMayOvertake(a: ProviderEvent, b: ProviderEvent)
    ensures var w0 := Next(FRESH, Start("w"));
            var w1 := Next(Next(w0, Recording(0, a, 1)), Recording(0, b, 2));
            var first, second := Record(1, 0, a, 1), Record(2, 0, b, 2);
            LogOf(Next(Next(w1, WritesText(second, true)), WritesText(first, true)), 0) == [Text(second), Text(first)]
  {
    var w0 := Next(FRESH, Start("w"));
    var wa := Next(w0, Recording(0, a, 1));
    var w1 := Next(wa, Recording(0, b, 2));
    var first, second := Record(1, 0, a, 1), Record(2, 0, b, 2);
    assert w1.pending == {first, second};
    var w2 := Next(w1, WritesText(second, true));
    assert LogOf(w2, 0) == [Text(second)] && first in w2.pending;
    assert [Text(second)] + [Text(first)] == [Text(second), Text(first)];
  }
}
