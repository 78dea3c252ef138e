/** The harness preparation supervisor (crates/contextd/src/harness_preparation.rs): one background task at a time,
    handed to a worker thread over a channel of capacity two, and an owned artifact that may be consumed once.
    Steps are the sections under the state lock and the worker's receives; tasks and builds may do anything, except that
    a task reports no progress after it has returned. */
module Preparation {
  import opened Options

  type OpId = int
  type Selection = int
  type Artifact = int

  datatype Phase =
    | Inspecting | Copying | CheckingSource | CheckingCopy | Retaining | Ready | Cancelling | Canceled | Failed

  datatype Status = Status(id: OpId, selection: Selection, phase: Phase, files: nat, bytes: nat, error: bool)

  datatype Plan = Planned(plan: int) | PlanFailed

  datatype Operation = Operation(
    status: Status, cancel: bool, active: bool, artifact: Option<Artifact>, previewing: bool, preview: Option<Plan>)

  datatype Work = Prepare(previous: Option<Operation>) | Stop

  datatype Worker =
    | Waiting       // blocked in recv
    | Received      // took a Prepare, has not looked at the operation yet
    | Working       // running the work it was handed
    | Exited
    | Panicked      // found the operation missing

  /** Where artifacts are besides the operation and the channel. */
  datatype Stock = Stock(produced: set<Artifact>, building: map<Artifact, OpId>, built: set<Artifact>,
                         dropped: set<Artifact>)

  datatype State = State(
    accepting: bool, operation: Option<Operation>, queue: seq<Work>, worker: Worker, stock: Stock)

  const CAPACITY: nat := 2
  const MAX_FILES: nat := 32768
  const MAX_BYTES: nat := 1_073_741_824

  datatype Outcome = Produced(artifact: Artifact) | TaskCanceled | TaskFailed

  /** The phases a task reports, as the core crate names them. */
  datatype TaskPhase = TaskInspecting | TaskCopying | TaskCheckingSource | TaskCheckingCopy | TaskRetaining | TaskReady

  datatype Progress = Progress(phase: TaskPhase, files: nat, bytes: nat)

  datatype Event =
    | Start(id: OpId, selection: Selection)
    | Receive
    | Look
    | Report(progress: Progress)
    | Finish(outcome: Outcome)
    | PreviewBegin(id: OpId, selection: Selection)
    | PreviewEnd(artifact: Artifact, result: Plan)
    | Cancel(id: OpId)
    | Close
    | Clear

  datatype Reply =
    | Current(status: Status) | Busy | Mismatch | Missing | Internal | Result(plan: Plan) | Taken(artifact: Artifact)

  const Initial: State := State(true, None, [], Waiting, Stock({}, map[], {}, {}))

  function ArtifactOf(op: Option<Operation>): set<Artifact>
  {
    if op.Some? && op.value.artifact.Some? then {op.value.artifact.value} else {}
  }

  function NewOperation(id: OpId, selection: Selection): Operation
  {
    Operation(Status(id, selection, Inspecting, 0, 0, false), false, true, None, false, None)
  }

  /** A send fails when the channel is full or its receiver is gone. */
  predicate CanSend(s: State) { |s.queue| < CAPACITY && !s.worker.Exited? && !s.worker.Panicked? }

  /** The checks of `start` that refuse or replay; `None` when a new operation is admitted. */
  function StartCheck(s: State, id: OpId, selection: Selection): Option<Reply>
  {
    if !s.accepting then Some(Busy)
    else if s.operation.None? then None
    else
      var current := s.operation.value;
      if current.status.id == id then
        Some(if current.status.selection == selection then Current(current.status) else Mismatch)
      else if current.active || current.previewing then Some(Busy)
      else None
  }

  function Starting(s: State, id: OpId, selection: Selection): State
  {
    if StartCheck(s, id, selection).Some? || !CanSend(s) then s
    else s.(operation := Some(NewOperation(id, selection)), queue := s.queue + [Prepare(s.operation)])
  }

  function StartReply(s: State, id: OpId, selection: Selection): Reply
  {
    var check := StartCheck(s, id, selection);
    if check.Some? then check.value
    else if CanSend(s) then Current(NewOperation(id, selection).status)
    else Internal
  }

  function Receiving(s: State): State
    requires s.queue != []
  {
    match s.queue[0]
    case Prepare(previous) =>
      s.(queue := s.queue[1..], worker := Received,
         stock := s.stock.(dropped := s.stock.dropped + ArtifactOf(previous)))
    case Stop => s.(queue := s.queue[1..], worker := Exited)
  }

  function Looking(s: State): State
  {
    s.(worker := if s.operation.Some? then Working else Panicked)
  }

  /** `update_progress`: a reported Ready still counts as Retaining; a requested cancellation stays visible. */
  function Advance(status: Status, progress: Progress): Status
  {
    var phase := match progress.phase
      case TaskInspecting => Inspecting
      case TaskCopying => Copying
      case TaskCheckingSource => CheckingSource
      case TaskCheckingCopy => CheckingCopy
      case TaskRetaining => Retaining
      case TaskReady => Retaining;
    status.(phase := if status.phase.Cancelling? then Cancelling else phase,
            files := if progress.files < MAX_FILES then progress.files else MAX_FILES,
            bytes := if progress.bytes < MAX_BYTES then progress.bytes else MAX_BYTES)
  }

  function Reporting(s: State, progress: Progress): State
  {
    if s.operation.None? then s.(worker := Panicked)
    else
      var op := s.operation.value;
      s.(operation := Some(op.(status := Advance(op.status, progress))))
  }

  function Finished(op: Operation, outcome: Outcome): Operation
  {
    match outcome
    case Produced(artifact) =>
      op.(active := false, artifact := Some(artifact), status := op.status.(phase := Ready))
    case TaskCanceled => op.(active := false, status := op.status.(phase := Canceled))
    case TaskFailed => op.(active := false, status := op.status.(phase := Failed, error := true))
  }

  function Finishing(s: State, outcome: Outcome): State
  {
    if s.operation.None? then s.(worker := Panicked)
    else
      var op := s.operation.value;
      var stock := if !outcome.Produced? then s.stock
                   else s.stock.(produced := s.stock.produced + {outcome.artifact},
                                 dropped := s.stock.dropped + ArtifactOf(s.operation));
      s.(operation := Some(Finished(op, outcome)), worker := Waiting, stock := stock)
  }

  /** What `preview` answers at admission; `Taken` hands the artifact to the caller's build. */
  function PreviewReply(s: State, id: OpId, selection: Selection): Reply
  {
    if !s.accepting then Busy
    else if s.operation.None? || s.operation.value.status.id != id then Missing
    else
      var op := s.operation.value;
      if op.status.selection != selection then Mismatch
      else if op.preview.Some? then Result(op.preview.value)
      else if op.active || op.previewing then Busy
      else if op.artifact.None? then Missing
      else Taken(op.artifact.value)
  }

  function Previewing(s: State, id: OpId, selection: Selection): State
  {
    var reply := PreviewReply(s, id, selection);
    if !reply.Taken? then s
    else
      s.(operation := Some(s.operation.value.(artifact := None, previewing := true)),
         stock := s.stock.(building := s.stock.building[reply.artifact := id]))
  }

  function PreviewDone(op: Operation, result: Plan): Operation
  {
    var status := if result.PlanFailed? then op.status.(phase := Failed, error := true) else op.status;
    op.(previewing := false, status := status, preview := Some(result))
  }

  function PreviewEnding(s: State, artifact: Artifact, result: Plan): State
    requires artifact in s.stock.building
  {
    var id := s.stock.building[artifact];
    var stock := s.stock.(building := s.stock.building - {artifact}, built := s.stock.built + {artifact});
    if s.operation.Some? && s.operation.value.status.id == id
    then s.(operation := Some(PreviewDone(s.operation.value, result)), stock := stock)
    else s.(stock := stock)
  }

  function Canceling(s: State, id: OpId): State
  {
    if s.operation.None? || s.operation.value.status.id != id || !s.operation.value.active then s
    else
      var op := s.operation.value;
      s.(operation := Some(op.(cancel := true, status := op.status.(phase := Cancelling))))
  }

  function Closing(s: State): State
  {
    if !s.accepting then s
    else
      var op := if s.operation.Some? then Some(s.operation.value.(cancel := true)) else None;
      s.(accepting := false, operation := op, queue := if CanSend(s) then s.queue + [Stop] else s.queue)
  }

  function Clearing(s: State): State
  {
    s.(operation := None, stock := s.stock.(dropped := s.stock.dropped + ArtifactOf(s.operation)))
  }

  /** Artifacts are fresh objects; `clear` runs only after the worker was joined. */
  predicate Enabled(s: State, e: Event)
  {
    match e
    case Receive => s.worker.Waiting? && s.queue != []
    case Look => s.worker.Received?
    case Report(_) => s.worker.Working?
    case Finish(outcome) => s.worker.Working? && (outcome.Produced? ==> outcome.artifact !in s.stock.produced)
    case PreviewEnd(artifact, _) => artifact in s.stock.building
    case Clear => s.worker.Exited? || s.worker.Panicked?
    case _ => true
  }

  function Step(s: State, e: Event): State
    requires Enabled(s, e)
  {
    match e
    case Start(id, selection) => Starting(s, id, selection)
    case Receive => Receiving(s)
    case Look => Looking(s)
    case Report(progress) => Reporting(s, progress)
    case Finish(outcome) => Finishing(s, outcome)
    case PreviewBegin(id, selection) => Previewing(s, id, selection)
    case PreviewEnd(artifact, result) => PreviewEnding(s, artifact, result)
    case Cancel(id) => Canceling(s, id)
    case Close => Closing(s)
    case Clear => Clearing(s)
  }

  // ----- The invariant -----

  /** The channel holds at most one Prepare, then at most one Stop, and a Stop exactly from close to exit. */
  ghost predicate QueueSound(accepting: bool, queue: seq<Work>, worker: Worker)
  {
    && !worker.Panicked?
    && (worker.Exited? ==> !accepting && queue == [])
    && (accepting ==> |queue| <= 1 && (queue != [] ==> queue[0].Prepare?))
    && (!accepting && !worker.Exited? ==>
          1 <= |queue| <= 2 && queue[|queue| - 1].Stop? && (|queue| == 2 ==> queue[0].Prepare?))
  }

  predicate Busyness(worker: Worker) { worker.Received? || worker.Working? }

  /** The operation is active exactly while its one task is queued or with the worker. */
  ghost predicate SingleFlight(operation: Option<Operation>, queue: seq<Work>, worker: Worker)
  {
    var queued := queue != [] && queue[0].Prepare?;
    && !(queued && Busyness(worker))
    && ((queued || Busyness(worker)) <==> (operation.Some? && operation.value.active))
  }

  ghost predicate OperationSound(op: Operation)
  {
    && (op.status.phase.Failed? <==> op.status.error)
    && (op.active ==> op.artifact.None? && !op.previewing && op.preview.None? && !op.status.phase.Ready?
                      && !op.status.phase.Canceled? && !op.status.phase.Failed?)
    && (op.artifact.Some? ==> !op.previewing && op.preview.None? && op.status.phase.Ready?)
    && (op.previewing ==> op.preview.None? && op.status.phase.Ready?)
  }

  /** At most one artifact is being built, and its operation, while it exists, knows. */
  ghost predicate BuildSound(accepting: bool, operation: Option<Operation>, building: map<Artifact, OpId>)
  {
    && (forall a, b | a in building && b in building :: a == b)
    && (operation.Some? && operation.value.previewing <==>
          operation.Some? && exists a :: a in building && building[a] == operation.value.status.id)
    && (forall a | a in building :: operation.Some? ==> building[a] == operation.value.status.id)
    && (operation.None? ==> building == map[] || !accepting)
  }

  function QueuedArtifacts(queue: seq<Work>): set<Artifact>
  {
    if queue != [] && queue[0].Prepare? then ArtifactOf(queue[0].previous) else {}
  }

  /** Every artifact ever produced is in exactly one place. */
  ghost predicate Conserved(operation: Option<Operation>, queue: seq<Work>, stock: Stock)
  {
    && stock.produced ==
       ArtifactOf(operation) + QueuedArtifacts(queue) + stock.building.Keys + stock.built + stock.dropped
    && ArtifactOf(operation) !! QueuedArtifacts(queue) !! stock.building.Keys !! stock.built !! stock.dropped
  }

  ghost predicate Inv(s: State)
  {
    && QueueSound(s.accepting, s.queue, s.worker)
    && SingleFlight(s.operation, s.queue, s.worker)
    && (s.operation.Some? ==> OperationSound(s.operation.value))
    && BuildSound(s.accepting, s.operation, s.stock.building)
    && Conserved(s.operation, s.queue, s.stock)
  }

  lemma StepKeepsFlight(s: State, e: Event)
    requires Inv(s) && Enabled(s, e)
    ensures var t := Step(s, e);
            QueueSound(t.accepting, t.queue, t.worker) && SingleFlight(t.operation, t.queue, t.worker)
  {
  }

  lemma StepKeepsOperation(s: State, e: Event)
    requires Inv(s) && Enabled(s, e)
    ensures var t := Step(s, e); t.operation.Some? ==> OperationSound(t.operation.value)
  {
  }

  lemma StepKeepsBuild(s: State, e: Event)
    requires Inv(s) && Enabled(s, e)
    ensures var t := Step(s, e); BuildSound(t.accepting, t.operation, t.stock.building)
  {
    var t := Step(s, e);
    if e.PreviewBegin? && PreviewReply(s, e.id, e.selection).Taken? {
      var a := PreviewReply(s, e.id, e.selection).artifact;
      assert a in t.stock.building && t.stock.building[a] == e.id;
    }
    if e.PreviewEnd? && s.operation.Some? {
      assert s.stock.building[e.artifact] == s.operation.value.status.id;
    }
  }

  lemma StepConserves(s: State, e: Event)
    requires Inv(s) && Enabled(s, e)
    ensures var t := Step(s, e); Conserved(t.operation, t.queue, t.stock)
  {
    var t := Step(s, e);
    if e.PreviewEnd? {
      assert t.stock.building.Keys == s.stock.building.Keys - {e.artifact};
    }
  }

  lemma StepKeepsInv(s: State, e: Event)
    requires Inv(s) && Enabled(s, e)
    ensures Inv(Step(s, e))
  {
    StepKeepsFlight(s, e);
    StepKeepsOperation(s, e);
    StepKeepsBuild(s, e);
    StepConserves(s, e);
  }

  // ----- Whole runs -----

  function Exec(es: seq<Event>): State
  {
    if es == [] then Initial
    else
      var s := Exec(es[..|es| - 1]);
      if Enabled(s, es[|es| - 1]) then Step(s, es[|es| - 1]) else s
  }

  lemma {:induction false} EveryRunKeepsInv(es: seq<Event>)
    ensures Inv(Exec(es))
  {
    if es != [] {
      EveryRunKeepsInv(es[..|es| - 1]);
      if Enabled(Exec(es[..|es| - 1]), es[|es| - 1]) {
        StepKeepsInv(Exec(es[..|es| - 1]), es[|es| - 1]);
      }
    }
  }

  function Prepares(queue: seq<Work>): nat
  {
    if queue == [] then 0 else (if queue[0].Prepare? then 1 else 0) + Prepares(queue[1..])
  }

  /** In every run at most one task is queued or running, the worker never finds its operation missing, an admitted
      start always finds room in the channel, and so does the Stop of the first close. */
  lemma OneTaskInEveryRun(es: seq<Event>, id: OpId, selection: Selection)
    ensures var s := Exec(es);
            && Prepares(s.queue) + (if Busyness(s.worker) then 1 else 0) <= 1
            && |s.queue| <= CAPACITY && !s.worker.Panicked?
            && (Busyness(s.worker) ==> s.operation.Some? && s.operation.value.active)
            && (StartCheck(s, id, selection).None? ==> s.queue == [] && s.worker.Waiting? && CanSend(s))
            && (s.accepting ==> CanSend(s))
  {
    EveryRunKeepsInv(es);
    var s := Exec(es);
    if s.queue != [] {
      var tail := s.queue[1..];
      assert |tail| == 1 ==> tail[0].Stop? && tail[1..] == [];
      assert Prepares(tail) == 0;
    }
  }

  /** An admitted start is answered with the new status, never with an internal error. */
  lemma AdmittedStartSucceeds(es: seq<Event>, id: OpId, selection: Selection)
    ensures StartReply(Exec(es), id, selection) != Internal
  {
    OneTaskInEveryRun(es, id, selection);
  }

  /** Each artifact a task ever produced is in exactly one of five places. */
  lemma ArtifactsConserved(es: seq<Event>, a: Artifact)
    requires a in Exec(es).stock.produced
    ensures var s := Exec(es);
            var held, queued := a in ArtifactOf(s.operation), a in QueuedArtifacts(s.queue);
            var building, built, dropped := a in s.stock.building, a in s.stock.built, a in s.stock.dropped;
            && (held || queued || building || built || dropped)
            && !(held && (queued || building || built || dropped))
            && !(queued && (building || built || dropped))
            && !(building && (built || dropped)) && !(built && dropped)
  {
    EveryRunKeepsInv(es);
  }

  lemma StepMovesArtifactsForward(s: State, e: Event, a: Artifact)
    requires Inv(s) && Enabled(s, e)
    ensures a in s.stock.produced ==> a in Step(s, e).stock.produced
    ensures a in s.stock.built ==> a in Step(s, e).stock.built
    ensures a in s.stock.dropped ==> a in Step(s, e).stock.dropped
    ensures a in s.stock.building && a !in Step(s, e).stock.building ==> a in Step(s, e).stock.built
  {
  }

  /** An artifact handed to `build` is never handed out again: from then on it is being built or built. */
  lemma {:induction false} BuiltAtMostOnce(es: seq<Event>, i: nat, a: Artifact)
    requires i <= |es| && (a in Exec(es[..i]).stock.building || a in Exec(es[..i]).stock.built)
    ensures var s := Exec(es);
            && (a in s.stock.building || a in s.stock.built)
            && a !in ArtifactOf(s.operation)
    ensures forall id, selection :: PreviewReply(Exec(es), id, selection) != Taken(a)
  {
    if i == |es| {
      assert es[..i] == es;
      EveryRunKeepsInv(es);
    } else {
      var before := es[..|es| - 1];
      assert before[..i] == es[..i];
      BuiltAtMostOnce(before, i, a);
      EveryRunKeepsInv(before);
      EveryRunKeepsInv(es);
      if Enabled(Exec(before), es[|es| - 1]) {
        StepMovesArtifactsForward(Exec(before), es[|es| - 1], a);
      }
    }
  }

  /** In every run a published status carries an error exactly when it says Failed. */
  lemma FailedExactlyWithError(es: seq<Event>)
    requires Exec(es).operation.Some?
    ensures Exec(es).operation.value.status.phase.Failed? <==> Exec(es).operation.value.status.error
  {
    EveryRunKeepsInv(es);
  }

  /** Why a task must not keep its reporter: a report that came in any state of any run would leave status and error in
      step exactly when the operation has not failed, and would find no operation exactly when there is none. */
  lemma LateReportNeedsAnUnfailedOperation(es: seq<Event>, progress: Progress)
    ensures var s := Exec(es); var t := Reporting(s, progress);
            && (t.worker.Panicked? <==> s.operation.None?)
            && (s.operation.Some? ==>
                  && t.operation.Some?
                  && ((t.operation.value.status.phase.Failed? <==> t.operation.value.status.error) <==>
                      !s.operation.value.status.phase.Failed?))
  {
    EveryRunKeepsInv(es);
  }

  /** The operation with this id and selection has its preview stored. */
  predicate Previewed(s: State, id: OpId, selection: Selection, plan: Plan)
  {
    && s.operation.Some? && s.operation.value.status.id == id && s.operation.value.status.selection == selection
    && s.operation.value.preview == Some(plan)
  }

  lemma StepKeepsPreview(s: State, e: Event, id: OpId, selection: Selection, plan: Plan)
    requires Inv(s) && Enabled(s, e) && Previewed(s, id, selection, plan)
    requires Step(s, e).operation.Some? && Step(s, e).operation.value.status.id == id
    ensures Previewed(Step(s, e), id, selection, plan)
  {
  }

  /** The operation is in place all the way from event `i` on. */
  ghost predicate StaysInPlace(es: seq<Event>, i: nat, id: OpId)
    requires i <= |es|
  {
    forall n | i <= n <= |es| :: Exec(es[..n]).operation.Some? && Exec(es[..n]).operation.value.status.id == id
  }

  /** In every run, once a preview is stored, every later preview of that operation is answered with it until the
      operation is replaced or cleared or the supervisor closed, whatever else is requested meanwhile. */
  lemma {:induction false} StoredPreviewReplays(es: seq<Event>, i: nat, id: OpId, selection: Selection, plan: Plan)
    requires i <= |es| && StaysInPlace(es, i, id) && Previewed(Exec(es[..i]), id, selection, plan)
    ensures Previewed(Exec(es), id, selection, plan)
    ensures Exec(es).accepting ==> PreviewReply(Exec(es), id, selection) == Result(plan)
  {
    assert es[..|es|] == es;
    if i < |es| {
      var before := es[..|es| - 1];
      assert forall n | i <= n <= |before| :: before[..n] == es[..n];
      StoredPreviewReplays(before, i, id, selection, plan);
      EveryRunKeepsInv(before);
      if Enabled(Exec(before), es[|es| - 1]) {
        StepKeepsPreview(Exec(before), es[|es| - 1], id, selection, plan);
      }
    }
  }

  // ----- What requests and results come to -----

  lemma After(es: seq<Event>, i: nat)
    requires i < |es| && Enabled(Exec(es[..i]), es[i])
    ensures Exec(es[..i + 1]) == Step(Exec(es[..i]), es[i])
  {
    assert es[..i + 1][..i] == es[..i];
  }

  /** A task is queued or with the worker. */
  predicate InFlight(s: State) { (s.queue != [] && s.queue[0].Prepare?) || Busyness(s.worker) }

  /** Some artifact is being built into a preview. */
  predicate Building(s: State) { exists a :: a in s.stock.building }

  /** How a start is answered in every run: a repeated one with its operation's status, one that changes the selection
      is refused, and any other is busy exactly when the supervisor is closed, a task is in flight or an artifact is
      being built; otherwise a new operation is in place with its task queued. */
  lemma StartAnswersExactly(es: seq<Event>, id: OpId, selection: Selection)
    ensures var s := Exec(es); var reply, t := StartReply(s, id, selection), Step(s, Start(id, selection));
            if !s.accepting then reply == Busy && t == s
            else if s.operation.Some? && s.operation.value.status.id == id then
              && t == s
              && reply == if s.operation.value.status.selection == selection then Current(s.operation.value.status)
                          else Mismatch
            else if InFlight(s) || Building(s) then reply == Busy && t == s
            else
              && reply == Current(Status(id, selection, Inspecting, 0, 0, false))
              && t.operation == Some(NewOperation(id, selection)) && !t.operation.value.cancel && InFlight(t)
  {
    EveryRunKeepsInv(es);
  }

  /** How a preview is answered in every run: with the stored result, or with the artifact if the operation holds it;
      busy exactly when the supervisor is closed, the operation's task is in flight or its artifact is being built. */
  lemma PreviewAnswersExactly(es: seq<Event>, id: OpId, selection: Selection)
    ensures var s := Exec(es); var reply := PreviewReply(s, id, selection);
            if !s.accepting then reply == Busy
            else if s.operation.None? || s.operation.value.status.id != id then reply == Missing
            else if s.operation.value.status.selection != selection then reply == Mismatch
            else
              && (reply.Result? <==> s.operation.value.preview.Some?)
              && (reply.Result? ==> s.operation.value.preview == Some(reply.plan))
              && (reply.Busy? <==> InFlight(s) || Building(s))
              && (reply.Taken? <==> ArtifactOf(s.operation) != {})
              && (reply.Taken? ==> ArtifactOf(s.operation) == {reply.artifact})
  {
    EveryRunKeepsInv(es);
  }

  /** What a task returns is what its operation shows. */
  predicate Shows(op: Operation, outcome: Outcome)
  {
    && !op.active
    && (op.status.phase.Ready? <==> outcome.Produced?)
    && (op.status.phase.Canceled? <==> outcome.TaskCanceled?)
    && (op.status.phase.Failed? <==> outcome.TaskFailed?)
    && (outcome.Produced? ==> op.artifact == Some(outcome.artifact))
  }

  /** The operation has ended; nothing but a failed build changes what it shows. */
  predicate StillShows(op: Operation, phase: Phase)
  {
    && !op.active
    && (op.status.phase == phase || (phase.Ready? && op.status.phase.Failed? && op.preview == Some(PlanFailed)))
  }

  lemma StepStillShows(s: State, e: Event, id: OpId, phase: Phase)
    requires Inv(s) && Enabled(s, e) && s.operation.Some? && s.operation.value.status.id == id
    requires StillShows(s.operation.value, phase)
    requires Step(s, e).operation.Some? && Step(s, e).operation.value.status.id == id
    ensures StillShows(Step(s, e).operation.value, phase)
  {
  }

  lemma {:induction false} ShownStands(es: seq<Event>, i: nat, id: OpId, phase: Phase)
    requires i <= |es| && StaysInPlace(es, i, id) && StillShows(Exec(es[..i]).operation.value, phase)
    ensures Exec(es).operation.Some? && StillShows(Exec(es).operation.value, phase)
  {
    assert es[..|es|] == es;
    if i < |es| {
      var before := es[..|es| - 1];
      assert forall n | i <= n <= |before| :: before[..n] == es[..n];
      ShownStands(before, i, id, phase);
      EveryRunKeepsInv(before);
      if Enabled(Exec(before), es[|es| - 1]) { StepStillShows(Exec(before), es[|es| - 1], id, phase); }
    }
  }

  /** In every run a task's result is shown as it was returned, a result as ready, a cancellation as canceled and a
      failure as failed, and stays so while the operation is in place, except that a failed build shows a ready one as
      failed. */
  lemma ResultIsShown(es: seq<Event>, i: nat, outcome: Outcome)
    requires i < |es| && es[i] == Finish(outcome) && Enabled(Exec(es[..i]), es[i])
    ensures var t := Exec(es[..i + 1]);
            && t.operation.Some? && Shows(t.operation.value, outcome)
            && (StaysInPlace(es, i + 1, t.operation.value.status.id) ==>
                  Exec(es).operation.Some? && StillShows(Exec(es).operation.value, t.operation.value.status.phase))
  {
    EveryRunKeepsInv(es[..i]);
    After(es, i);
    var op := Exec(es[..i + 1]).operation.value;
    if StaysInPlace(es, i + 1, op.status.id) { ShownStands(es, i + 1, op.status.id, op.status.phase); }
  }

  /** In every run the worker goes from waiting to received to working and back, each by its own event, and stops only
      at a Stop; it never panics. */
  lemma WorkerMovesInOrder(es: seq<Event>, e: Event)
    requires Enabled(Exec(es), e)
    ensures var s, t := Exec(es), Step(Exec(es), e);
            t.worker == match e
                        case Receive => if s.queue[0].Prepare? then Received else Exited
                        case Look => Working
                        case Finish(_) => Waiting
                        case _ => s.worker
  {
    EveryRunKeepsInv(es);
  }

  /** While an operation is in place its cancel flag is set exactly by a cancel of it while its task is in flight, or by
      closing; and a canceled operation in flight shows that it is canceling. */
  lemma CancelFlagExactly(es: seq<Event>, e: Event)
    requires Enabled(Exec(es), e) && Exec(es).operation.Some? && Step(Exec(es), e).operation.Some?
    requires Exec(es).operation.value.status.id == Step(Exec(es), e).operation.value.status.id
    ensures var s, t := Exec(es), Step(Exec(es), e);
            && (t.operation.value.cancel <==>
                  || s.operation.value.cancel
                  || (e == Cancel(s.operation.value.status.id) && InFlight(s))
                  || (e.Close? && s.accepting))
            && (e == Cancel(s.operation.value.status.id) && InFlight(s) ==> t.operation.value.status.phase.Cancelling?)
            && (s.operation.value.status.phase.Cancelling? && InFlight(t) ==>
                  t.operation.value.status.phase.Cancelling?)
  {
    EveryRunKeepsInv(es);
    StepKeepsInv(Exec(es), e);
  }

  /** What a build returns is stored with its operation and is what every later preview of it is answered with. */
  lemma BuiltPreviewReplays(es: seq<Event>, i: nat, artifact: Artifact, result: Plan)
    requires i < |es| && es[i] == PreviewEnd(artifact, result) && Enabled(Exec(es[..i]), es[i])
    requires var id := Exec(es[..i]).stock.building[artifact];
             Exec(es[..i]).operation.Some? && StaysInPlace(es, i + 1, id)
    ensures var s, id := Exec(es), Exec(es[..i]).stock.building[artifact];
            && s.operation.Some? && Previewed(s, id, s.operation.value.status.selection, result)
            && (s.accepting ==> PreviewReply(s, id, s.operation.value.status.selection) == Result(result))
            && (s.operation.value.status.phase.Failed? <==> result.PlanFailed?)
  {
    EveryRunKeepsInv(es[..i]);
    After(es, i);
    var id, t := Exec(es[..i]).stock.building[artifact], Exec(es[..i + 1]);
    StoredPreviewReplays(es, i + 1, id, t.operation.value.status.selection, result);
    ShownStands(es, i + 1, id, t.operation.value.status.phase);
  }

  /** The stages are shown under their own names, in every state, as long as nothing was canceled. */
  lemma ProgressIsShown(status: Status, progress: Progress)
    ensures var shown := Advance(status, progress);
            && (shown.phase.Cancelling? <==> status.phase.Cancelling?)
            && (!status.phase.Cancelling? ==>
                  && (shown.phase.Inspecting? <==> progress.phase.TaskInspecting?)
                  && (shown.phase.Copying? <==> progress.phase.TaskCopying?)
                  && (shown.phase.CheckingSource? <==> progress.phase.TaskCheckingSource?)
                  && (shown.phase.CheckingCopy? <==> progress.phase.TaskCheckingCopy?))
            && (progress.files <= MAX_FILES <==> shown.files == progress.files) && shown.files <= MAX_FILES
            && (progress.bytes <= MAX_BYTES <==> shown.bytes == progress.bytes) && shown.bytes <= MAX_BYTES
  {
  }

  // ----- The shared state as the source updates it -----

  class Supervisor {
    var accepting: bool
    var operation: Option<Operation>
    var queue: seq<Work>
    var worker: Worker
    ghost var stock: Stock

    ghost function Snapshot(): State
      reads this
    {
      State(accepting, operation, queue, worker, stock)
    }

    constructor ()
      ensures Snapshot() == Initial
    {
      accepting, operation, queue, worker := true, None, [], Waiting;
      stock := Stock({}, map[], {}, {});
    }

    /** `try_send` on the channel of capacity two. */
    method TrySend(work: Work) returns (ok: bool)
      modifies this`queue
      ensures ok == CanSend(old(Snapshot()))
      ensures queue == if ok then old(queue) + [work] else old(queue)
    {
      if worker.Exited? || worker.Panicked? || CAPACITY <= |queue| {
        return false;
      }
      queue := queue + [work];
      return true;
    }

    /** `start`: the new operation is in place before the work is sent, and taken back if sending fails. */
    method Start(id: OpId, selection: Selection) returns (reply: Reply)
      modifies this
      ensures Snapshot() == Step(old(Snapshot()), Event.Start(id, selection))
      ensures reply == StartReply(old(Snapshot()), id, selection)
    {
      if !accepting {
        return Busy;
      }
      if operation.Some? {
        var current := operation.value;
        if current.status.id == id {
          return if current.status.selection == selection then Current(current.status) else Mismatch;
        }
        if current.active || current.previewing {
          return Busy;
        }
      }
      var previous := operation;
      var created := NewOperation(id, selection);
      operation := Some(created);
      var sent := TrySend(Prepare(previous));
      if !sent {
        operation := previous;
        return Internal;
      }
      return Current(created.status);
    }

    /** The worker's receive, dropping the operation it replaces. */
    method Receive()
      requires Enabled(Snapshot(), Event.Receive)
      modifies this
      ensures Snapshot() == Step(old(Snapshot()), Event.Receive)
    {
      var work := queue[0];
      queue := queue[1..];
      match work {
        case Prepare(previous) =>
          stock := stock.(dropped := stock.dropped + ArtifactOf(previous));
          worker := Received;
        case Stop =>
          worker := Exited;
      }
    }

    /** The worker reads the cancel flag of the operation it was admitted for. */
    method Look() returns (cancel: bool)
      requires Inv(Snapshot()) && Enabled(Snapshot(), Event.Look)
      modifies this
      ensures Snapshot() == Step(old(Snapshot()), Event.Look)
      ensures operation.Some? && cancel == operation.value.cancel
    {
      cancel := operation.value.cancel; // the `expect` in the source cannot fail
      worker := Working;
    }

    /** A report moves the status of the operation and nothing else: it never ends the operation or makes it ready,
        keeps a requested cancellation visible, and never shows more than the limits. */
    method Report(progress: Progress)
      requires Inv(Snapshot()) && Enabled(Snapshot(), Event.Report(progress))
      modifies this`operation
      ensures Snapshot() == Step(old(Snapshot()), Event.Report(progress))
      ensures operation.Some? && operation == Some(old(operation).value.(status := operation.value.status))
      ensures var before, after := old(operation).value.status, operation.value.status;
              && after.id == before.id && after.selection == before.selection && after.error == before.error
              && after.phase !in {Ready, Canceled, Failed}
              && (before.phase.Cancelling? ==> after.phase.Cancelling?)
              && after.files <= MAX_FILES && after.bytes <= MAX_BYTES
    {
      var op := operation.value;
      var phase := op.status.phase;
      if !phase.Cancelling? {
        match progress.phase {
          case TaskInspecting => phase := Inspecting;
          case TaskCopying => phase := Copying;
          case TaskCheckingSource => phase := CheckingSource;
          case TaskCheckingCopy => phase := CheckingCopy;
          case TaskRetaining => phase := Retaining;
          case TaskReady => phase := Retaining;
        }
      }
      var files := if MAX_FILES < progress.files then MAX_FILES else progress.files;
      var bytes := if MAX_BYTES < progress.bytes then MAX_BYTES else progress.bytes;
      operation := Some(op.(status := op.status.(phase := phase, files := files, bytes := bytes)));
    }

    method Finish(outcome: Outcome)
      requires Inv(Snapshot()) && Enabled(Snapshot(), Event.Finish(outcome))
      modifies this
      ensures Snapshot() == Step(old(Snapshot()), Event.Finish(outcome))
    {
      var op := operation.value.(active := false);
      match outcome {
        case Produced(artifact) =>
          stock := stock.(produced := stock.produced + {artifact}, dropped := stock.dropped + ArtifactOf(operation));
          op := op.(artifact := Some(artifact), status := op.status.(phase := Ready));
        case TaskCanceled =>
          op := op.(status := op.status.(phase := Canceled));
        case TaskFailed =>
          op := op.(status := op.status.(phase := Failed, error := true));
      }
      operation := Some(op);
      worker := Waiting;
    }

    /** The admission section of `preview`. */
    method PreviewBegin(id: OpId, selection: Selection) returns (reply: Reply)
      modifies this
      ensures Snapshot() == Step(old(Snapshot()), Event.PreviewBegin(id, selection))
      ensures reply == PreviewReply(old(Snapshot()), id, selection)
    {
      if !accepting {
        return Busy;
      }
      if operation.None? || operation.value.status.id != id {
        return Missing;
      }
      var op := operation.value;
      if op.status.selection != selection {
        return Mismatch;
      }
      if op.preview.Some? {
        return Result(op.preview.value);
      }
      if op.active || op.previewing {
        return Busy;
      }
      if op.artifact.None? {
        return Missing;
      }
      operation := Some(op.(artifact := None, previewing := true));
      stock := stock.(building := stock.building[op.artifact.value := id]);
      return Taken(op.artifact.value);
    }

    /** The publication section of `preview`, after `build` returned. */
    method PreviewEnd(artifact: Artifact, id: OpId, result: Plan)
      requires Enabled(Snapshot(), Event.PreviewEnd(artifact, result)) && stock.building[artifact] == id
      modifies this
      ensures Snapshot() == Step(old(Snapshot()), Event.PreviewEnd(artifact, result))
    {
      stock := stock.(building := stock.building - {artifact}, built := stock.built + {artifact});
      if operation.Some? && operation.value.status.id == id {
        var op := operation.value.(previewing := false);
        if result.PlanFailed? {
          op := op.(status := op.status.(phase := Failed, error := true));
        }
        operation := Some(op.(preview := Some(result)));
      }
    }

    method Cancel(id: OpId) returns (reply: Reply)
      modifies this
      ensures Snapshot() == Step(old(Snapshot()), Event.Cancel(id))
      ensures reply == if operation.Some? && operation.value.status.id == id then Current(operation.value.status)
              else Missing
    {
      if operation.None? || operation.value.status.id != id {
        return Missing;
      }
      if operation.value.active {
        operation := Some(operation.value.(cancel := true, status := operation.value.status.(phase := Cancelling)));
      }
      return Current(operation.value.status);
    }

    method Close()
      modifies this
      ensures Snapshot() == Step(old(Snapshot()), Event.Close)
    {
      if accepting {
        accepting := false;
        if operation.Some? {
          operation := Some(operation.value.(cancel := true));
        }
        var sent := TrySend(Stop);
      }
    }

    method Clear()
      requires Enabled(Snapshot(), Event.Clear)
      modifies this
      ensures Snapshot() == Step(old(Snapshot()), Event.Clear)
    {
      stock := stock.(dropped := stock.dropped + ArtifactOf(operation));
      operation := None;
    }
  }
}
