/** The hosted sign-in service (crates/contextd/src/hosted_auth.rs): one mutex-guarded state, replaced generation by
    generation, and background jobs (restoring, signing in and maintaining, signing out) that report into it. An aborted
    job may still be inside a blocking call, so a job of any generation may try to report at any time. The wall clock
    is an input at every read; the monotonic clock only advances. Cancellation tokens are numbers. */
module HostedAuth {
  import opened Options

  type Id = int
  type Token = int

  datatype Failure = Denied | Expired | CredentialStore | Unavailable

  datatype Phase =
    | Disabled | Restoring | SigningIn | Connected | SigningOut
    | SignedOut(remoteRevoked: Option<bool>) | Failed(reason: Failure)

  datatype Lifetime = Lifetime(expires: int, deadline: int)

  /** A session a maintenance job had accepted, and the clocks it had read. */
  datatype Session = Session(generation: Id, lifetime: Lifetime, wall: int, mono: int)

  datatype State = State(
    generation: Id,
    phase: Phase,
    validUntil: Option<Lifetime>,
    startExpected: Option<Id>,
    cancellation: Option<Token>,
    closed: bool,
    canceled: set<Token>,
    mono: int,
    launched: seq<Id>,         // history: the generation of each job ever launched
    superseded: set<Id>,       // history: generations that have been replaced
    starts: map<Id, Id>,       // history: accepted start requests, operation to expected generation
    session: Option<Session>)  // history: the last accepted session

  datatype Request = Status | Start(op: Id, expected: Id) | Cancel(generation: Id) | Logout(generation: Id)

  datatype Reply = Reported(generation: Id, phase: Phase) | ShuttingDown | RevisionConflict | Busy

  datatype Event =
    | Handle(request: Request, wall: Option<int>, next: Id, token: Token)
    | Publish(g: Id, phase: Phase)
    | Connect(g: Id, expires: int, seen: int, read: int, token: Token)
    | Adopt(g: Id, token: Token)
    | Tick(elapsed: nat)
    | Stop

  /** A service with an owner starts by restoring. */
  function Initial(generation: Id): State
  {
    State(generation, Restoring, None, None, None, false, {}, 0, [generation], {}, map[], None)
  }

  // ---- one step ----------------------------------------------------------------

  predicate Current(s: State, g: Id) { !s.closed && s.generation == g }

  predicate StillValid(s: State, wall: Option<int>)
  {
    s.validUntil.Some? && wall.Some? && wall.value < s.validUntil.value.expires && s.mono < s.validUntil.value.deadline
  }

  function Checked(s: State, wall: Option<int>): State
  {
    if s.phase.Connected? && !StillValid(s, wall) then s.(phase := Failed(Expired)) else s
  }

  function Withdrawn(s: State): set<Token>
  {
    if s.cancellation.Some? then s.canceled + {s.cancellation.value} else s.canceled
  }

  predicate Replays(s: State, op: Id, expected: Id) { op == s.generation && s.startExpected == Some(expected) }

  /** A start request is taken. */
  predicate Starts(s: State, op: Id, expected: Id)
  {
    && !Replays(s, op, expected) && expected == s.generation && op != s.generation
    && (s.phase.SignedOut? || s.phase.Failed?)
  }

  /** A cancel or sign-out request is taken. */
  predicate SignsOut(s: State, request: Request)
  {
    match request
    case Cancel(g) => g == s.generation && s.phase.SigningIn?
    case Logout(g) => g == s.generation && !s.phase.SigningOut?
    case _ => false
  }

  function Started(s: State, op: Id, expected: Id, token: Token): State
  {
    State(op, SigningIn, None, Some(expected), Some(token), s.closed, Withdrawn(s), s.mono, s.launched + [op],
          s.superseded + {s.generation}, s.starts[op := expected], s.session)
  }

  function SigningOff(s: State, next: Id): State
  {
    State(next, SigningOut, s.validUntil, None, None, s.closed, Withdrawn(s), s.mono, s.launched + [next],
          s.superseded + {s.generation}, s.starts, s.session)
  }

  /** The effect of a request on a service with an owner. */
  function Handled(s: State, request: Request, wall: Option<int>, next: Id, token: Token): State
  {
    if s.closed then s
    else
      var c := Checked(s, wall);
      if request.Start? && Starts(c, request.op, request.expected) then Started(c, request.op, request.expected, token)
      else if SignsOut(c, request) then SigningOff(c, next)
      else c
  }

  function Answer(s: State, request: Request, wall: Option<int>, next: Id, token: Token): Reply
  {
    var c := Checked(s, wall);
    var t := Handled(s, request, wall, next, token);
    if s.closed then ShuttingDown
    else match request
      case Status => Reported(t.generation, t.phase)
      case Start(op, expected) =>
        if Replays(c, op, expected) || Starts(c, op, expected) then Reported(t.generation, t.phase)
        else if expected != c.generation || op == c.generation then RevisionConflict
        else Busy
      case Cancel(g) => if g != c.generation then RevisionConflict else Reported(t.generation, t.phase)
      case Logout(g) => if g != c.generation then RevisionConflict else Reported(t.generation, t.phase)
  }

  predicate Reportable(phase: Phase) { phase.Failed? || phase.SignedOut? }

  function Lasting(expires: int, wall: int, read: int): Lifetime
  {
    Lifetime(expires, read + (if expires - wall >= 1 then expires - wall - 1 else 0))
  }

  function Step(s: State, e: Event): State
  {
    match e
    case Handle(request, wall, next, token) => Handled(s, request, wall, next, token)
    case Publish(g, phase) => if Current(s, g) then s.(phase := phase, validUntil := None) else s
    case Connect(g, expires, wall, read, token) =>
      if !Current(s, g) || token in s.canceled then s
      else s.(cancellation := Some(token), phase := Connected, validUntil := Some(Lasting(expires, wall, read)),
              session := Some(Session(g, Lasting(expires, wall, read), wall, read)))
    case Adopt(g, token) => if Current(s, g) then s.(cancellation := Some(token)) else s
    case Tick(elapsed) => s.(mono := s.mono + elapsed)
    case Stop => s.(closed := true, cancellation := None, canceled := Withdrawn(s))
  }

  predicate ByJob(e: Event) { e.Publish? || e.Connect? || e.Adopt? }

  predicate Used(s: State, id: Id) { id == s.generation || id in s.superseded }

  /** Jobs act for the generation they were launched for and report what they may; the service's own ids are new, and a
      client's operation id is new or repeats the request it was first accepted for. */
  predicate Enabled(s: State, e: Event)
  {
    match e
    case Handle(request, _, next, _) => !Used(s, next) && (request.Start? ==>
      !Used(s, request.op) || (request.op in s.starts && s.starts[request.op] == request.expected))
    case Publish(g, phase) => g in s.launched && Reportable(phase)
    case Connect(g, expires, wall, read, _) => g in s.launched && wall < expires && read <= s.mono
    case Adopt(g, _) => g in s.launched
    case Tick(_) => true
    case Stop => true
  }

  function Exec(s: State, es: seq<Event>): State
  {
    if es == [] then s
    else
      var t := Exec(s, es[..|es| - 1]);
      if Enabled(t, es[|es| - 1]) then Step(t, es[|es| - 1]) else t
  }

  // ---- what every run keeps --------------------------------------------------------

  predicate Distinct(ids: seq<Id>)
  {
    forall i, j | 0 <= i < j < |ids| :: ids[i] != ids[j]
  }

  /** Generations are never reused; every job has one, and no two jobs share one. */
  predicate Generations(generation: Id, superseded: set<Id>, launched: seq<Id>)
  {
    && generation !in superseded
    && (forall g | g in launched :: g == generation || g in superseded)
    && Distinct(launched)
  }

  /** Every accepted start named a generation that it replaced, and the current one is remembered. */
  predicate Remembered(s: State)
  {
    && (forall op | op in s.starts :: s.starts[op] in s.superseded && Used(s, op))
    && s.startExpected == (if s.generation in s.starts then Some(s.starts[s.generation]) else None)
  }

  /** Connected shows the last accepted session, of this very generation. */
  predicate Backed(generation: Id, phase: Phase, validUntil: Option<Lifetime>, session: Option<Session>)
  {
    && (phase.Connected? ==>
          session.Some? && session.value.generation == generation && validUntil == Some(session.value.lifetime))
    && (session.Some? ==>
          && session.value.lifetime == Lasting(session.value.lifetime.expires, session.value.wall, session.value.mono)
          && session.value.wall < session.value.lifetime.expires)
  }

  predicate Inv(s: State)
  {
    && Generations(s.generation, s.superseded, s.launched)
    && Remembered(s)
    && (s.session.Some? ==> s.session.value.mono <= s.mono)
    && Backed(s.generation, s.phase, s.validUntil, s.session)
  }

  lemma NextGeneration(generation: Id, superseded: set<Id>, launched: seq<Id>, next: Id)
    requires Generations(generation, superseded, launched) && next != generation && next !in superseded
    ensures Generations(next, superseded + {generation}, launched + [next])
  {
    forall i, j | 0 <= i < j < |launched + [next]| ensures (launched + [next])[i] != (launched + [next])[j]
    {
      if j == |launched| { assert launched[i] in launched; }
    }
  }

  /** A repeated start is never taken again. */
  lemma RepeatIsNotTaken(s: State, wall: Option<int>, op: Id)
    requires Inv(s) && op in s.starts
    ensures !Starts(Checked(s, wall), op, s.starts[op])
  {
  }

  lemma HandleKeepsInv(s: State, request: Request, wall: Option<int>, next: Id, token: Token)
    requires Inv(s) && Enabled(s, Handle(request, wall, next, token))
    ensures Inv(Handled(s, request, wall, next, token))
  {
    var c := Checked(s, wall);
    if request.Start? && request.op in s.starts { RepeatIsNotTaken(s, wall, request.op); }
    if request.Start? && Starts(c, request.op, request.expected) {
      NextGeneration(s.generation, s.superseded, s.launched, request.op);
    } else if SignsOut(c, request) {
      NextGeneration(s.generation, s.superseded, s.launched, next);
    }
  }

  lemma StepKeepsInv(s: State, e: Event)
    requires Inv(s) && Enabled(s, e)
    ensures Inv(Step(s, e))
  {
    if e.Handle? { HandleKeepsInv(s, e.request, e.wall, e.next, e.token); }
  }

  lemma {:induction false} EveryRunKeepsInv(s: State, es: seq<Event>)
    requires Inv(s)
    ensures Inv(Exec(s, es))
  {
    if es != [] {
      EveryRunKeepsInv(s, es[..|es| - 1]);
      var t := Exec(s, es[..|es| - 1]);
      if Enabled(t, es[|es| - 1]) { StepKeepsInv(t, es[|es| - 1]); }
    }
  }

  lemma InitiallyInv(generation: Id)
    ensures Inv(Initial(generation))
  {
  }

  // ---- generations are isolated --------------------------------------------------------

  predicate Silenced(s: State, g: Id) { s.closed || g in s.superseded }

  lemma {:induction false} SilencedForGood(s: State, es: seq<Event>, g: Id)
    requires Silenced(s, g)
    ensures Silenced(Exec(s, es), g)
  {
    if es != [] { SilencedForGood(s, es[..|es| - 1], g); }
  }

  /** A request was taken that replaces the generation, or the service was closed. */
  predicate Replaces(s: State, e: Event)
  {
    e.Stop? || (e.Handle? && Step(s, e).generation != s.generation)
  }

  /** After a start, cancel, sign-out or close, whatever happens later, no job launched before it changes anything. */
  lemma OlderJobsStaySilent(generation: Id, before: seq<Event>, e: Event, after: seq<Event>, late: Event)
    requires var s := Exec(Initial(generation), before);
      Enabled(s, e) && Replaces(s, e) && ByJob(late) && late.g in s.launched
    ensures var t := Exec(Step(Exec(Initial(generation), before), e), after);
      Step(t, late) == t
  {
    var s := Exec(Initial(generation), before);
    InitiallyInv(generation);
    EveryRunKeepsInv(Initial(generation), before);
    StepKeepsInv(s, e);
    EveryRunKeepsInv(Step(s, e), after);
    assert Silenced(Step(s, e), late.g);
    SilencedForGood(Step(s, e), after, late.g);
  }

  /** Why ids must be new: taking a start silences every job launched before it if and only if its operation id was
      never a job's generation. */
  lemma SilenceNeedsFreshIds(s: State, op: Id, expected: Id, wall: Option<int>, next: Id, token: Token)
    requires Inv(s) && !s.closed && Starts(Checked(s, wall), op, expected)
    ensures var t := Step(s, Handle(Start(op, expected), wall, next, token));
      (forall late | ByJob(late) && late.g in s.launched :: Step(t, late) == t) <==> op !in s.launched
  {
    var t := Step(s, Handle(Start(op, expected), wall, next, token));
    if op in s.launched {
      var late := Publish(op, Failed(Denied));
      assert late.g in s.launched && Step(t, late) != t;
    }
  }

  lemma ExecStep(s: State, es: seq<Event>, e: Event)
    ensures Exec(s, es + [e]) == if Enabled(Exec(s, es), e) then Step(Exec(s, es), e) else Exec(s, es)
  {
    assert (es + [e])[..|es|] == es;
  }

  /** A sign-in that fails after the restored credentials were found missing. */
  function FailedSignIn(first: Id, op: Id, next: Id, token: Token): seq<Event>
  {
    [Publish(first, SignedOut(None)), Handle(Start(op, first), None, next, token), Publish(op, Failed(Denied))]
  }

  /** A run that shows it: after a failed sign-in a start that reuses the first generation's id is taken, and the late
      report of the job launched for that generation at the beginning then ends the new sign-in. */
  lemma ReusedIdRevivesOldJob(first: Id, op: Id, next: Id, token: Token, late: Phase)
    requires op != first && next != first && Reportable(late)
    ensures var s := Exec(Initial(first), FailedSignIn(first, op, next, token));
      var t := Step(s, Handle(Start(first, op), None, next, token));
      && first in s.launched && Starts(Checked(s, None), first, op)
      && t.generation == first && t.phase == SigningIn
      && Enabled(t, Publish(first, late)) && Step(t, Publish(first, late)).phase == late
  {
    var e1, e2 := Publish(first, SignedOut(None)), Handle(Start(op, first), None, next, token);
    ExecStep(Initial(first), [], e1);
    assert [] + [e1] == [e1];
    ExecStep(Initial(first), [e1], e2);
    assert [e1] + [e2] == [e1, e2];
    ExecStep(Initial(first), [e1, e2], Publish(op, Failed(Denied)));
    assert [e1, e2] + [Publish(op, Failed(Denied))] == FailedSignIn(first, op, next, token);
    assert first in Exec(Initial(first), [e1, e2]).launched;
  }

  /** No generation ever has two jobs, so a repeated start launches nothing, whenever it comes: while its sign-in is
      current it reports where that stands, and afterwards it conflicts. */
  lemma RepeatedStartLaunchesNothing(generation: Id, es: seq<Event>, op: Id, wall: Option<int>, next: Id, token: Token)
    requires op in Exec(Initial(generation), es).starts
    ensures var s := Exec(Initial(generation), es); var again := Start(op, s.starts[op]);
      && Handled(s, again, wall, next, token) == (if s.closed then s else Checked(s, wall))
      && Answer(s, again, wall, next, token) ==
         (if s.closed then ShuttingDown
          else if op == s.generation then Reported(op, Checked(s, wall).phase)
          else RevisionConflict)
      && Distinct(s.launched)
  {
    InitiallyInv(generation);
    EveryRunKeepsInv(Initial(generation), es);
    RepeatIsNotTaken(Exec(Initial(generation), es), wall, op);
  }

  // ---- what Connected means --------------------------------------------------------------

  /** However the wall clock jumps, a reply says Connected only for the current generation's last accepted session, and
      only before its monotonic deadline, which is less than the lifetime that was read after the clock was read. */
  lemma ConnectedOnlyBeforeTheDeadline(generation: Id, es: seq<Event>, request: Request, wall: Option<int>,
                                       next: Id, token: Token)
    requires var r := Answer(Exec(Initial(generation), es), request, wall, next, token);
      r.Reported? && r.phase.Connected?
    ensures var s := Exec(Initial(generation), es);
      && s.session.Some? && s.session.value.generation == s.generation
      && s.mono < s.session.value.lifetime.deadline
      && s.mono - s.session.value.mono < s.session.value.lifetime.expires - s.session.value.wall - 1
      && wall.Some? && wall.value < s.session.value.lifetime.expires
      && !s.closed
  {
    InitiallyInv(generation);
    EveryRunKeepsInv(Initial(generation), es);
  }

  /** A session still lasts: the wall clock is known and before its expiry, and less time has passed since the clocks
      were read than the session had left then, less one second. */
  predicate Lasts(session: Session, wall: Option<int>, mono: int)
  {
    && wall.Some? && wall.value < session.lifetime.expires
    && mono - session.mono < session.lifetime.expires - session.wall - 1
  }

  /** A job of the current generation, not canceled, shows a session. */
  predicate Shows(s: State, e: Event)
  {
    e.Connect? && !s.closed && e.g == s.generation && e.token !in s.canceled
  }

  /** What ends a shown session: the current job's report, a request that finds it over, or a sign-out. */
  predicate Ends(s: State, e: Event)
    requires s.session.Some?
  {
    && !s.closed
    && (match e
        case Publish(g, _) => g == s.generation
        case Handle(request, wall, _, _) => !Lasts(s.session.value, wall, s.mono) || request == Logout(s.generation)
        case _ => false)
  }

  /** In every run, a status request is answered Connected exactly while the shown session lasts. */
  lemma ReportsConnectedExactlyWhileItLasts(generation: Id, es: seq<Event>, wall: Option<int>, next: Id, token: Token)
    ensures var s := Exec(Initial(generation), es); var r := Answer(s, Status, wall, next, token);
      r == Reported(s.generation, Connected) <==>
        !s.closed && s.phase.Connected? && s.session.Some? && Lasts(s.session.value, wall, s.mono)
  {
    InitiallyInv(generation);
    EveryRunKeepsInv(Initial(generation), es);
  }

  /** And at every step of every run, a session is shown exactly when it was shown by the step, or was shown before and
      the step does not end it. */
  lemma ShownExactlyUntilEnded(generation: Id, es: seq<Event>, e: Event)
    requires Enabled(Exec(Initial(generation), es), e)
    ensures var s := Exec(Initial(generation), es); var t := Step(s, e);
      && (s.phase.Connected? ==> s.session.Some?)
      && (t.phase.Connected? <==> Shows(s, e) || (s.phase.Connected? && !Ends(s, e)))
      && (Shows(s, e) ==> t.session.value.lifetime.expires == e.expires && t.session.value.wall == e.seen &&
                          t.session.value.mono == e.read && t.session.value.generation == s.generation)
      && (!Shows(s, e) ==> t.session == s.session)
  {
    InitiallyInv(generation);
    EveryRunKeepsInv(Initial(generation), es);
    var s := Exec(Initial(generation), es);
    if e.Handle? && e.request.Start? && e.request.op in s.starts {
      RepeatIsNotTaken(s, e.wall, e.request.op);
    }
  }

  /** Whatever the wall clock says, a session is not reported once its lifetime has passed. */
  lemma TimeEndsEverySession(generation: Id, es: seq<Event>, elapsed: nat, wall: Option<int>, next: Id, token: Token)
    requires var s := Exec(Initial(generation), es);
      s.session.Some? && elapsed >= s.session.value.lifetime.expires - s.session.value.wall - 1
    ensures var s := Step(Exec(Initial(generation), es), Tick(elapsed));
      Answer(s, Status, wall, next, token) != Reported(s.generation, Connected)
  {
    InitiallyInv(generation);
    EveryRunKeepsInv(Initial(generation), es);
    ExecStep(Initial(generation), es, Tick(elapsed));
    EveryRunKeepsInv(Initial(generation), es + [Tick(elapsed)]);
  }

  /** What the current job reports is what the next request is told. */
  lemma CurrentReportIsTold(s: State, phase: Phase, wall: Option<int>, next: Id, token: Token)
    requires !s.closed && Reportable(phase)
    ensures Answer(Step(s, Publish(s.generation, phase)), Status, wall, next, token) == Reported(s.generation, phase)
    ensures Step(s, Publish(s.generation, phase)).validUntil.None?
  {
  }

  // ---- which requests are taken ----------------------------------------------------------

  /** What a status request at these clocks is told. */
  function Told(s: State, wall: Option<int>): Phase { Checked(s, wall).phase }

  lemma ToldByStatus(s: State, wall: Option<int>, next: Id, token: Token)
    requires !s.closed
    ensures Answer(s, Status, wall, next, token) == Reported(s.generation, Told(s, wall))
  {
  }

  /** With a new operation id, a sign-in starts exactly when the client names the current generation and is told that
      there is no session. Otherwise nothing is launched; it is told that the generation moved on, or to wait. */
  lemma SignInStartsExactlyWhen(generation: Id, es: seq<Event>, op: Id, expected: Id, wall: Option<int>, next: Id,
                                token: Token)
    requires var s := Exec(Initial(generation), es); !s.closed && !Used(s, op)
    ensures var s := Exec(Initial(generation), es); var t := Handled(s, Start(op, expected), wall, next, token);
      var told := Told(s, wall); var idle := told.SignedOut? || told.Failed?;
      && (t.generation == op <==> expected == s.generation && idle)
      && (t.generation == op ==> t.phase == SigningIn && t.launched == s.launched + [op] && t.starts[op] == expected)
      && (t.generation != op ==> t == s.(phase := told))
      && Answer(s, Start(op, expected), wall, next, token) ==
         (if expected != s.generation then RevisionConflict
          else if idle then Reported(op, SigningIn)
          else Busy)
  {
    InitiallyInv(generation);
    EveryRunKeepsInv(Initial(generation), es);
  }

  /** The current operation's id starts nothing: its own request is told where it stands, and any other conflicts. */
  lemma CurrentOperationAnswers(generation: Id, es: seq<Event>, expected: Id, wall: Option<int>, next: Id, token: Token)
    requires !Exec(Initial(generation), es).closed
    ensures var s := Exec(Initial(generation), es); var again := Start(s.generation, expected);
      && Handled(s, again, wall, next, token) == s.(phase := Told(s, wall))
      && Answer(s, again, wall, next, token) ==
         (if s.generation in s.starts && s.starts[s.generation] == expected then Reported(s.generation, Told(s, wall))
          else RevisionConflict)
  {
    InitiallyInv(generation);
    EveryRunKeepsInv(Initial(generation), es);
  }

  /** With the current generation, a cancel signs out exactly when the client is told that it is signing in, and a
      sign-out unless it is told that it is signing out already. Otherwise nothing is launched. */
  lemma SignOutStartsExactlyWhen(s: State, request: Request, wall: Option<int>, next: Id, token: Token)
    requires !s.closed && next != s.generation && (request.Cancel? || request.Logout?)
    ensures var t := Handled(s, request, wall, next, token); var told := Told(s, wall);
      var taken := if request.Cancel? then told.SigningIn? else !told.SigningOut?;
      && (t.generation == next <==> request.generation == s.generation && taken)
      && (t.generation == next ==> t.phase == SigningOut && t.launched == s.launched + [next])
      && (t.generation != next ==> t == s.(phase := told))
      && Answer(s, request, wall, next, token) ==
         (if request.generation != s.generation then RevisionConflict
          else if taken then Reported(next, SigningOut)
          else Reported(s.generation, told))
  {
  }

  /** A token that a job handed in is canceled by whatever next replaces the generation or closes the service, and shows
      nothing from then on. */
  lemma {:induction false} CanceledForGood(s: State, es: seq<Event>, token: Token)
    requires token in s.canceled
    ensures token in Exec(s, es).canceled
  {
    if es != [] { CanceledForGood(s, es[..|es| - 1], token); }
  }

  lemma HandedInTokenIsCanceled(s: State, handed: Event, e: Event, after: seq<Event>, late: Event)
    requires !s.closed && (handed.Adopt? || Shows(s, handed)) && handed.g == s.generation
    requires Replaces(Step(s, handed), e) && late.Connect? && late.token == handed.token
    ensures var t := Exec(Step(Step(s, handed), e), after); Step(t, late) == t
  {
    assert handed.token in Step(Step(s, handed), e).canceled;
    CanceledForGood(Step(Step(s, handed), e), after, handed.token);
  }

  lemma {:induction false} ClosedForGood(s: State, es: seq<Event>)
    requires s.closed && s.cancellation.None?
    ensures Exec(s, es).closed && Exec(s, es).cancellation.None?
  {
    if es != [] { ClosedForGood(s, es[..|es| - 1]); }
  }

  /** A closed service stays closed, holds no token, and answers every request in the same way. */
  lemma ClosedAnswersNothing(s: State, es: seq<Event>, request: Request, wall: Option<int>, next: Id, token: Token)
    ensures var t := Exec(Step(s, Stop), es);
      && t.closed && t.cancellation.None? && Answer(t, request, wall, next, token) == ShuttingDown
      && Handled(t, request, wall, next, token) == t
  {
    ClosedForGood(Step(s, Stop), es);
  }

  // ---- the service ---------------------------------------------------------------------

  class Service {
    var generation: Id
    var phase: Phase
    var validUntil: Option<Lifetime>
    var startExpected: Option<Id>
    var cancellation: Option<Token>
    var closed: bool
    const configured: bool
    ghost var canceled: set<Token>
    ghost var mono: int
    ghost var launched: seq<Id>
    ghost var superseded: set<Id>
    ghost var starts: map<Id, Id>
    ghost var session: Option<Session>

    ghost function Snapshot(): State
      reads this
    {
      State(generation, phase, validUntil, startExpected, cancellation, closed, canceled, mono, launched, superseded,
            starts, session)
    }

    constructor (id: Id, configured: bool)
      ensures this.configured == configured
      ensures Snapshot() == if configured then Initial(id) else Initial(id).(phase := Disabled, launched := [])
    {
      generation, phase, closed := id, if configured then Restoring else Disabled, false;
      validUntil, startExpected, cancellation := None, None, None;
      this.configured := configured;
      canceled, mono, launched := {}, 0, if configured then [id] else [];
      superseded, starts, session := {}, map[], None;
    }

    method CheckLifetime(wall: Option<int>, instant: int)
      requires instant == mono
      modifies this`phase
      ensures Snapshot() == Checked(old(Snapshot()), wall)
    {
      if phase.Connected? && !(validUntil.Some? && wall.Some? && wall.value < validUntil.value.expires &&
                               instant < validUntil.value.deadline) {
        phase := Failed(Expired);
      }
    }

    /** The current token is canceled, the generation noted as replaced and the next job as launched. */
    ghost method Supersede(next: Id)
      modifies this`canceled, this`launched, this`superseded
      ensures canceled == Withdrawn(old(Snapshot())) && launched == old(launched) + [next]
      ensures superseded == old(superseded) + {generation}
    {
      canceled, launched, superseded := Withdrawn(Snapshot()), launched + [next], superseded + {generation};
    }

    method LaunchLogin(op: Id, expected: Id, token: Token)
      modifies this
      ensures Snapshot() == Started(old(Snapshot()), op, expected, token)
    {
      Supersede(op);
      starts := starts[op := expected];
      generation, phase := op, SigningIn;
      startExpected, validUntil, cancellation := Some(expected), None, Some(token);
    }

    method LaunchLogout(next: Id)
      modifies this
      ensures Snapshot() == SigningOff(old(Snapshot()), next)
    {
      Supersede(next);
      generation, startExpected, phase, cancellation := next, None, SigningOut, None;
    }

    method BeginLogin(op: Id, expected: Id, token: Token) returns (reply: Reply)
      modifies this
      ensures Snapshot() == if Starts(old(Snapshot()), op, expected) then Started(old(Snapshot()), op, expected, token)
                            else old(Snapshot())
      ensures reply == if Replays(old(Snapshot()), op, expected) || Starts(old(Snapshot()), op, expected)
                       then Reported(generation, phase)
                       else if expected != old(generation) || op == old(generation) then RevisionConflict
                       else Busy
    {
      if op == generation && startExpected == Some(expected) {
        return Reported(generation, phase);
      }
      if expected != generation || op == generation {
        return RevisionConflict;
      }
      if !(phase.SignedOut? || phase.Failed?) {
        return Busy;
      }
      LaunchLogin(op, expected, token);
      reply := Reported(generation, phase);
    }

    method BeginLogout(request: Request, next: Id) returns (reply: Reply)
      requires request.Cancel? || request.Logout?
      modifies this
      ensures Snapshot() == if SignsOut(old(Snapshot()), request) then SigningOff(old(Snapshot()), next)
                            else old(Snapshot())
      ensures reply == if request.generation != old(generation) then RevisionConflict else Reported(generation, phase)
    {
      if request.generation != generation {
        return RevisionConflict;
      }
      if request.Cancel? && !phase.SigningIn? {
        return Reported(generation, phase);
      }
      if phase.SigningOut? {
        return Reported(generation, phase);
      }
      LaunchLogout(next);
      reply := Reported(generation, phase);
    }

    /** `handle`, with both clocks as read under the lock. */
    method HandleRequest(request: Request, wall: Option<int>, instant: int, next: Id, token: Token)
      returns (reply: Reply)
      requires instant == mono
      modifies this
      ensures configured ==> Snapshot() == Step(old(Snapshot()), Handle(request, wall, next, token))
      ensures configured ==> reply == Answer(old(Snapshot()), request, wall, next, token)
      ensures !configured && !old(closed) ==>
                Snapshot() == Checked(old(Snapshot()), wall) && reply == Reported(generation, phase)
      ensures old(closed) ==> Snapshot() == old(Snapshot()) && reply == ShuttingDown
    {
      if closed {
        return ShuttingDown;
      }
      CheckLifetime(wall, instant);
      if request.Status? || !configured {
        return Reported(generation, phase);
      }
      if request.Start? {
        reply := BeginLogin(request.op, request.expected, token);
      } else {
        reply := BeginLogout(request, next);
      }
    }

    /** `publish`: a job's report counts only while its generation is current. */
    method Report(g: Id, outcome: Phase)
      modifies this`phase, this`validUntil
      ensures Snapshot() == Step(old(Snapshot()), Publish(g, outcome))
    {
      if !closed && generation == g {
        phase, validUntil := outcome, None;
      }
    }

    /** The section of `maintain_session` that shows a session, with the deadline worked out before the lock. */
    method ShowSession(g: Id, expires: int, wall: int, read: int, token: Token, isCanceled: bool)
      requires isCanceled == (token in canceled) && wall < expires
      modifies this
      ensures Snapshot() == Step(old(Snapshot()), Connect(g, expires, wall, read, token))
    {
      var deadline := read + (expires - wall - 1);
      if closed || generation != g || isCanceled {
        return;
      }
      cancellation, validUntil, phase := Some(token), Some(Lifetime(expires, deadline)), Connected;
      session := Some(Session(g, Lifetime(expires, deadline), wall, read));
    }

    method Close()
      modifies this
      ensures Snapshot() == Step(old(Snapshot()), Stop)
    {
      closed := true;
      canceled := Withdrawn(Snapshot());
      cancellation := None;
    }
  }
}
