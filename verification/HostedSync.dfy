/** The hosted sync supervisor (crates/contextd/src/hosted_sync.rs): one cycle at a time, each a chain of steps run by
    the vault worker under an authority made for one session object, with network calls in between. The worker rebuilds
    the scope from current key material at every step. Whether a step is delivered, authorized and answered, what the
    material says, and how the vault, the engine and the network fare are inputs at every step. */
module HostedSync {
  import opened Options

  type Session = int
  type Scope = int

  datatype Pulling = PullRequest(scope: Scope) | PullDone(more: bool)
  datatype Checking = CheckRequest(scope: Scope) | CheckDone(more: bool)

  /** What the worker hands back after a step. */
  datatype Progress =
    | Certificates(scope: Scope)
    | Push(scope: Scope)
    | Pushed(more: bool, pull: Pulling)
    | Pull(pull: Pulling)
    | Checkpoint(check: Checking)
    | Complete(more: bool)
    | Failed

  datatype Action =
    | Begin | HaveCertificates | FinishPush | FinishPull | BeginCheckpoint | FinishCheckpoint
    | Finish(more: bool) | GiveUp

  /** How one step fares. */
  datatype World = World(
    network: bool,              // the network call before the step succeeds
    delivered: bool,            // the step reaches the worker
    authorized: bool,           // the authority still holds
    material: Option<Scope>,    // the scope of the current key material
    unblocks: bool,             // the vault unblocks the outbox
    engine: bool,               // the engine's own work succeeds
    due: bool,                  // an operation is due to be pushed
    done: bool,                 // the engine needs no further request
    more: bool,                 // the engine reports more work
    answered: bool)             // the answer reaches the cycle

  /** What is seen from outside. Cycles are numbered. */
  datatype Entry =
    | Unblocked(session: Session)
    | Admitted(session: Session)
    | Sent(session: Session, cycle: nat, scope: Scope)    // a push goes to the network
    | Ran(cycle: nat, scope: Scope, action: Action)       // the worker runs a step in this scope

  datatype Authority = Authority(session: Session, changed: bool, certified: bool, admitted: bool)

  datatype Cycle = Cycle(authority: Authority, progress: Option<Progress>, more: bool, scope: Option<Scope>)

  /** One turn of a cycle: what was asked of the worker, how it fared, and the answer if one came back. */
  datatype Turn = Turn(cycle: nat, action: Action, world: World, answer: Option<Progress>)

  datatype State = State(
    lastSession: Option<Session>, cycle: Option<Cycle>, cycles: nat, log: seq<Entry>, turns: seq<Turn>)

  datatype Event = Wake(session: Session) | Submit(world: World)

  const Initial: State := State(None, None, 0, [], [])

  // ---- the worker's side -----------------------------------------------------------

  datatype Applied = Applied(authority: Authority, log: seq<Entry>, progress: Option<Progress>)

  function NextPull(w: World, scope: Scope): Pulling { if w.done then PullDone(w.more) else PullRequest(scope) }

  function NextCheck(w: World, scope: Scope): Checking { if w.done then CheckDone(w.more) else CheckRequest(scope) }

  /** The certificate step: it may be taken once per authority, and unblocks the outbox if the session is new. */
  function Certify(a: Authority, scope: Scope, w: World, log: seq<Entry>): Applied
  {
    if a.certified then Applied(a, log, None)
    else if a.changed && !w.unblocks then Applied(a.(certified := true), log, None)
    else
      var unblocked := if a.changed then log + [Unblocked(a.session)] else log;
      Applied(a.(certified := true, admitted := true), unblocked + [Admitted(a.session)],
              if !w.engine then None
              else if w.due then Some(Push(scope)) else Some(Pull(NextPull(w, scope))))
  }

  function Perform(a: Authority, scope: Scope, action: Action, w: World, log: seq<Entry>): Applied
  {
    match action
    case Begin => Applied(a, log, Some(Certificates(scope)))
    case HaveCertificates => Certify(a, scope, w, log)
    case FinishPush => Applied(a, log, if w.engine then Some(Pushed(w.more, NextPull(w, scope))) else None)
    case FinishPull => Applied(a, log, if w.engine then Some(Pull(NextPull(w, scope))) else None)
    case BeginCheckpoint => Applied(a, log, if w.engine then Some(Checkpoint(NextCheck(w, scope))) else None)
    case FinishCheckpoint => Applied(a, log, if w.engine then Some(Checkpoint(NextCheck(w, scope))) else None)
    case Finish(more) => Applied(a, log, if w.engine then Some(Complete(more || w.due)) else None)
    case GiveUp => Applied(a, log, Some(Failed))
  }

  /** `apply`, with the material's scope checked against the one the cycle expects. */
  function Apply(a: Authority, expected: Option<Scope>, action: Action, w: World, n: nat, log: seq<Entry>): Applied
  {
    if !w.authorized || w.material.None? || (expected.Some? && expected.value != w.material.value)
    then Applied(a, log, None)
    else Perform(a, w.material.value, action, w, log + [Ran(n, w.material.value, action)])
  }

  // ---- the cycle's side --------------------------------------------------------------

  /** The scope a step is submitted under; the first is submitted under none. */
  function Expected(c: Cycle): Option<Scope>
  {
    match c.progress
    case None => None
    case Some(Certificates(scope)) => Some(scope)
    case Some(Push(scope)) => Some(scope)
    case Some(Pull(PullRequest(scope))) => Some(scope)
    case Some(Checkpoint(CheckRequest(scope))) => Some(scope)
    case _ => c.scope
  }

  function NextAction(c: Cycle, w: World): Action
  {
    match c.progress
    case None => Begin
    case Some(Certificates(_)) => if w.network then HaveCertificates else GiveUp
    case Some(Push(_)) => FinishPush
    case Some(Pushed(_, _)) => BeginCheckpoint
    case Some(Pull(PullRequest(_))) => if w.network then FinishPull else GiveUp
    case Some(Pull(PullDone(_))) => BeginCheckpoint
    case Some(Checkpoint(CheckRequest(_))) => if w.network then FinishCheckpoint else GiveUp
    case Some(Checkpoint(CheckDone(more))) => Finish(c.more || more)
    case Some(_) => GiveUp
  }

  /** The cycle as it takes up an answer: scopes named by the answer become the cycle's, `Pushed` goes on as `Pull`, and
      reports of more work add up. */
  function Resume(c: Cycle, p: Progress): Cycle
  {
    match p
    case Certificates(scope) => c.(progress := Some(p), scope := Some(scope))
    case Push(scope) => c.(progress := Some(p), scope := Some(scope))
    case Pushed(more, pull) => ResumePull(c.(more := c.more || more), pull)
    case Pull(pull) => ResumePull(c, pull)
    case _ => c.(progress := Some(p))
  }

  function ResumePull(c: Cycle, pull: Pulling): Cycle
  {
    match pull
    case PullRequest(scope) => c.(progress := Some(Pull(pull)), scope := Some(scope))
    case PullDone(more) => c.(progress := Some(Pull(pull)), more := c.more || more)
  }

  /** A push goes out whatever comes of it: its answer may be lost. */
  function SendLog(c: Cycle, n: nat, log: seq<Entry>): seq<Entry>
  {
    if c.progress.Some? && c.progress.value.Push?
    then log + [Sent(c.authority.session, n, c.progress.value.scope)] else log
  }

  /** The supervisor remembers the session once its change was admitted. */
  function Ended(s: State, a: Authority, log: seq<Entry>, turns: seq<Turn>): State
  {
    State(Latest(a, s.lastSession), None, s.cycles, log, turns)
  }

  predicate Final(p: Progress) { p.Complete? || p.Failed? }

  function Submitted(s: State, c: Cycle, w: World): State
  {
    var log := SendLog(c, s.cycles, s.log);
    var action := NextAction(c, w);
    if !w.delivered then Ended(s, c.authority, log, s.turns + [Turn(s.cycles, action, w, None)])
    else
      var r := Apply(c.authority, Expected(c), action, w, s.cycles, log);
      var turns := s.turns + [Turn(s.cycles, action, w, if w.answered then r.progress else None)];
      if !w.answered || r.progress.None? || Final(r.progress.value) then Ended(s, r.authority, r.log, turns)
      else s.(cycle := Some(Resume(c.(authority := r.authority), r.progress.value)), log := r.log, turns := turns)
  }

  predicate Enabled(s: State, e: Event)
  {
    match e
    case Wake(_) => s.cycle.None?
    case Submit(_) => s.cycle.Some?
  }

  function Step(s: State, e: Event): State
    requires Enabled(s, e)
  {
    match e
    case Wake(session) =>
      s.(cycle := Some(Cycle(Authority(session, s.lastSession != Some(session), false, false), None, false, None)),
         cycles := s.cycles + 1)
    case Submit(w) => Submitted(s, s.cycle.value, w)
  }

  function Exec(s: State, es: seq<Event>): State
  {
    if es == [] then s
    else
      var t := Exec(s, es[..|es| - 1]);
      if Enabled(t, es[|es| - 1]) then Step(t, es[|es| - 1]) else t
  }

  // ---- what every run keeps ----------------------------------------------------------

  function Latest(a: Authority, last: Option<Session>): Option<Session>
  {
    if a.admitted then Some(a.session) else last
  }

  /** The session whose change was admitted last. */
  function Effective(s: State): Option<Session>
  {
    if s.cycle.Some? then Latest(s.cycle.value.authority, s.lastSession) else s.lastSession
  }

  predicate NoOther(log: seq<Entry>, session: Session, from: int, to: int)
  {
    forall k | 0 <= k < |log| && from <= k < to :: log[k].Admitted? ==> log[k].session == session
  }

  /** Entry `i` unblocked the outbox for a session, and no other session was admitted since. */
  predicate Open(log: seq<Entry>, i: int, session: Session)
  {
    0 <= i < |log| && log[i] == Unblocked(session) && NoOther(log, session, i, |log|)
  }

  /** The open unblock is the last admitted session's, and there is one. */
  ghost predicate Accounted(log: seq<Entry>, effective: Option<Session>)
  {
    && (effective.Some? ==> exists i :: Open(log, i, effective.value))
    && (forall i, session :: Open(log, i, session) ==> effective == Some(session))
  }

  /** Between two unblocks for one session another session was admitted. */
  predicate OncePerStretch(log: seq<Entry>)
  {
    forall i, j | 0 <= i < j < |log| :: log[i].Unblocked? && log[i] == log[j] ==> !NoOther(log, log[i].session, i, j)
  }

  /** Every push is in a stretch that began with an unblock. */
  ghost predicate UnblockedFirst(log: seq<Entry>)
  {
    forall j | 0 <= j < |log| :: log[j].Sent? ==> exists i :: UnblockedBefore(log, i, j)
  }

  predicate UnblockedBefore(log: seq<Entry>, i: int, j: int)
    requires 0 <= j < |log| && log[j].Sent?
  {
    0 <= i < j && log[i] == Unblocked(log[j].session) && NoOther(log, log[j].session, i, j)
  }

  predicate InCycle(e: Entry, n: nat) { (e.Ran? || e.Sent?) && e.cycle == n }

  /** Every step and push of a cycle is in the same scope. */
  predicate OneScope(log: seq<Entry>)
  {
    forall i, j | 0 <= i < |log| && 0 <= j < |log| ::
      (log[i].Ran? || log[i].Sent?) && InCycle(log[j], log[i].cycle) ==> log[i].scope == log[j].scope
  }

  predicate NoLater(log: seq<Entry>, n: nat)
  {
    forall i | 0 <= i < |log| :: log[i].Ran? || log[i].Sent? ==> log[i].cycle <= n
  }

  predicate AllIn(log: seq<Entry>, n: nat, scope: Option<Scope>)
  {
    forall i | 0 <= i < |log| :: InCycle(log[i], n) ==> Some(log[i].scope) == scope
  }

  /** A running cycle: before it begins nothing is settled; until the certificates are in nothing is admitted; from then
      on it is; and the progress names no scope but the cycle's. */
  predicate Proper(c: Cycle)
  {
    && (c.progress.None? ==> c.scope.None?)
    && (c.progress.Some? ==>
          c.scope.Some? && Expected(c) == c.scope && !Final(c.progress.value) && !c.progress.value.Pushed?)
    && (c.progress.None? || c.progress.value.Certificates? ==> !c.authority.certified && !c.authority.admitted)
    && (c.progress.Some? && !c.progress.value.Certificates? ==> c.authority.certified && c.authority.admitted)
  }

  /** The log so far is lawful and its open unblock is the given session's. */
  ghost predicate Lawful(log: seq<Entry>, effective: Option<Session>)
  {
    Accounted(log, effective) && OncePerStretch(log) && UnblockedFirst(log)
  }

  predicate Scoped(log: seq<Entry>, n: nat, scope: Option<Scope>)
  {
    OneScope(log) && NoLater(log, n) && AllIn(log, n, scope)
  }

  ghost predicate Inv(s: State)
  {
    && Lawful(s.log, Effective(s))
    && (match s.cycle
        case None => OneScope(s.log) && NoLater(s.log, s.cycles)
        case Some(c) => Proper(c) && Scoped(s.log, s.cycles, c.scope) &&
                        (c.authority.changed <==> s.lastSession != Some(c.authority.session)))
  }

  // ---- one entry at a time -------------------------------------------------------------

  /** An entry that admits no other session leaves open unblocks open, and opens none unless it is one. */
  lemma OpenKept(log: seq<Entry>, e: Entry, i: int, session: Session)
    requires !e.Unblocked? && (e.Admitted? ==> e.session == session)
    ensures Open(log + [e], i, session) <==> Open(log, i, session)
  {
    if Open(log + [e], i, session) {
      forall k | 0 <= k < |log| && i <= k < |log| ensures log[k].Admitted? ==> log[k].session == session
      {
        assert (log + [e])[k] == log[k];
      }
    }
  }

  lemma AccountedKept(log: seq<Entry>, e: Entry, effective: Option<Session>)
    requires Accounted(log, effective) && !e.Unblocked? && (e.Admitted? ==> effective == Some(e.session))
    ensures Accounted(log + [e], effective)
  {
    if effective.Some? {
      var i :| Open(log, i, effective.value);
      OpenKept(log, e, i, effective.value);
    }
    forall i, session | Open(log + [e], i, session) ensures effective == Some(session)
    {
      if e.Admitted? { assert (log + [e])[|log|] == e; }
      OpenKept(log, e, i, session);
    }
  }

  lemma StretchesKept(log: seq<Entry>, e: Entry)
    requires OncePerStretch(log) && (e.Unblocked? ==> forall i :: !Open(log, i, e.session))
    ensures OncePerStretch(log + [e])
  {
    var more := log + [e];
    forall i, j | 0 <= i < j < |more| && more[i].Unblocked? && more[i] == more[j]
      ensures !NoOther(more, more[i].session, i, j)
    {
      assert NoOther(more, more[i].session, i, j) ==> NoOther(log, more[i].session, i, j) by {
        assert forall k | 0 <= k < |log| :: log[k] == more[k];
      }
      if j == |log| { assert !Open(log, i, e.session); }
    }
  }

  lemma PushesKept(log: seq<Entry>, e: Entry)
    requires UnblockedFirst(log) && (e.Sent? ==> exists i :: Open(log, i, e.session))
    ensures UnblockedFirst(log + [e])
  {
    var more := log + [e];
    forall j | 0 <= j < |more| && more[j].Sent? ensures exists i :: UnblockedBefore(more, i, j)
    {
      if j < |log| {
        var i :| UnblockedBefore(log, i, j);
        assert UnblockedBefore(more, i, j);
      } else {
        var i :| Open(log, i, e.session);
        assert UnblockedBefore(more, i, j);
      }
    }
  }

  lemma EntryKept(log: seq<Entry>, e: Entry, effective: Option<Session>)
    requires Lawful(log, effective) && !e.Unblocked? && (e.Admitted? || e.Sent? ==> effective == Some(e.session))
    ensures Lawful(log + [e], effective)
  {
    AccountedKept(log, e, effective);
    StretchesKept(log, e);
    PushesKept(log, e);
  }

  /** Admitting a session for the first time in its stretch: the unblock is new, and closes every other. */
  lemma ChangeKept(log: seq<Entry>, session: Session, effective: Option<Session>)
    requires Lawful(log, effective) && effective != Some(session)
    ensures Lawful(log + [Unblocked(session)] + [Admitted(session)], Some(session))
  {
    var mid := log + [Unblocked(session)];
    var all := mid + [Admitted(session)];
    StretchesKept(log, Unblocked(session));
    StretchesKept(mid, Admitted(session));
    PushesKept(log, Unblocked(session));
    PushesKept(mid, Admitted(session));
    assert Open(all, |log|, session);
    forall i, other | Open(all, i, other) ensures other == session
    {
      assert all[|mid|] == Admitted(session);
    }
  }

  lemma ScopedKept(log: seq<Entry>, e: Entry, n: nat, scope: Option<Scope>)
    requires Scoped(log, n, scope) && (e.Ran? || e.Sent? ==> e.cycle == n && scope == Some(e.scope))
    ensures Scoped(log + [e], n, scope)
  {
    var more := log + [e];
    forall i, j | 0 <= i < |more| && 0 <= j < |more| && (more[i].Ran? || more[i].Sent?) &&
           InCycle(more[j], more[i].cycle)
      ensures more[i].scope == more[j].scope
    {
      assert i < |log| ==> more[i] == log[i];
      assert j < |log| ==> more[j] == log[j];
    }
  }

  // ---- one step at a time ----------------------------------------------------------------

  /** What the worker may rely on before a step. */
  predicate Ready(a: Authority, action: Action, last: Option<Session>)
  {
    && (a.changed <==> last != Some(a.session))
    && (action.HaveCertificates? ==> !a.certified && !a.admitted)
  }

  lemma CertifyKept(a: Authority, scope: Scope, w: World, log: seq<Entry>, n: nat, last: Option<Session>)
    requires Lawful(log, Latest(a, last)) && Scoped(log, n, Some(scope)) && Ready(a, HaveCertificates, last)
    ensures var r := Certify(a, scope, w, log);
      && Lawful(r.log, Latest(r.authority, last)) && Scoped(r.log, n, Some(scope))
      && (r.progress.Some? ==> r.authority.certified && r.authority.admitted)
  {
    if a.changed && w.unblocks {
      ChangeKept(log, a.session, last);
      ScopedKept(log, Unblocked(a.session), n, Some(scope));
      ScopedKept(log + [Unblocked(a.session)], Admitted(a.session), n, Some(scope));
    } else if !a.changed {
      EntryKept(log, Admitted(a.session), last);
      ScopedKept(log, Admitted(a.session), n, Some(scope));
    }
  }

  /** A step keeps the log lawful, and runs in the scope it was submitted under if it runs at all. */
  lemma ApplyKept(a: Authority, expected: Option<Scope>, action: Action, w: World, n: nat, log: seq<Entry>,
                  last: Option<Session>)
    requires Lawful(log, Latest(a, last)) && Scoped(log, n, expected) && Ready(a, action, last)
    ensures var r := Apply(a, expected, action, w, n, log);
      && Lawful(r.log, Latest(r.authority, last)) && OneScope(r.log) && NoLater(r.log, n)
      && r.authority.session == a.session && r.authority.changed == a.changed
      && (r.progress.Some? ==>
            w.material.Some? && Scoped(r.log, n, w.material) && (expected.None? || expected == w.material))
      && (r.progress.Some? && action.HaveCertificates? ==> r.authority.certified && r.authority.admitted)
      && (!action.HaveCertificates? ==> r.authority == a)
  {
    if w.authorized && w.material.Some? && (expected.None? || expected == w.material) {
      var ran := Ran(n, w.material.value, action);
      EntryKept(log, ran, Latest(a, last));
      ScopedKept(log, ran, n, w.material);
      if action.HaveCertificates? { CertifyKept(a, w.material.value, w, log + [ran], n, last); }
    }
  }

  /** The scope named by the worker's answer, if it names one. */
  predicate Names(p: Progress, scope: Scope)
  {
    match p
    case Certificates(x) => x == scope
    case Push(x) => x == scope
    case Pushed(_, PullRequest(x)) => x == scope
    case Pull(PullRequest(x)) => x == scope
    case Checkpoint(CheckRequest(x)) => x == scope
    case _ => true
  }

  lemma AnswerNamesItsScope(a: Authority, expected: Option<Scope>, action: Action, w: World, n: nat, log: seq<Entry>)
    ensures var r := Apply(a, expected, action, w, n, log);
      r.progress.Some? ==>
        && w.material.Some? && Names(r.progress.value, w.material.value)
        && (r.progress.value.Certificates? <==> action.Begin?)
  {
  }

  lemma ResumeIsProper(c: Cycle, a: Authority, p: Progress, scope: Scope)
    requires Names(p, scope) && !Final(p) && (c.scope == Some(scope) || p.Certificates?)
    requires p.Certificates? ==> !a.certified && !a.admitted
    requires !p.Certificates? ==> a.certified && a.admitted
    ensures var t := Resume(c.(authority := a), p); Proper(t) && t.scope == Some(scope) && t.authority == a
  {
  }

  lemma SendKept(s: State)
    requires Inv(s) && s.cycle.Some?
    ensures var c := s.cycle.value; var log := SendLog(c, s.cycles, s.log);
      Lawful(log, Latest(c.authority, s.lastSession)) && Scoped(log, s.cycles, c.scope)
  {
    var c := s.cycle.value;
    if c.progress.Some? && c.progress.value.Push? {
      var sent := Sent(c.authority.session, s.cycles, c.progress.value.scope);
      EntryKept(s.log, sent, Latest(c.authority, s.lastSession));
      ScopedKept(s.log, sent, s.cycles, c.scope);
    }
  }

  lemma SubmitKeepsInv(s: State, w: World)
    requires Inv(s) && s.cycle.Some?
    ensures Inv(Submitted(s, s.cycle.value, w))
  {
    var c := s.cycle.value;
    SendKept(s);
    var log := SendLog(c, s.cycles, s.log);
    var action := NextAction(c, w);
    assert Expected(c) == c.scope;
    if w.delivered {
      ApplyKept(c.authority, c.scope, action, w, s.cycles, log, s.lastSession);
      AnswerNamesItsScope(c.authority, c.scope, action, w, s.cycles, log);
      var r := Apply(c.authority, c.scope, action, w, s.cycles, log);
      if w.answered && r.progress.Some? && !Final(r.progress.value) {
        ResumeIsProper(c, r.authority, r.progress.value, w.material.value);
      }
    }
  }

  lemma StepKeepsInv(s: State, e: Event)
    requires Inv(s) && Enabled(s, e)
    ensures Inv(Step(s, e))
  {
    if e.Submit? { SubmitKeepsInv(s, e.world); }
  }

  lemma {:induction false} EveryRunKeepsInv(es: seq<Event>)
    ensures Inv(Exec(Initial, es))
  {
    if es != [] {
      EveryRunKeepsInv(es[..|es| - 1]);
      var t := Exec(Initial, es[..|es| - 1]);
      if Enabled(t, es[|es| - 1]) { StepKeepsInv(t, es[|es| - 1]); }
    }
  }

  // ---- what it means -------------------------------------------------------------------------

  /** Over all cycles, with anything failing anywhere: between two successful unblocks for one session object another
      session was admitted, and each push is preceded by an unblock for its session, with no other session
      admitted between the two. */
  lemma OneUnblockPerStretch(es: seq<Event>)
    ensures var log := Exec(Initial, es).log;
      && (forall i, j | 0 <= i < j < |log| :: log[i].Unblocked? && log[j] == log[i] ==>
            exists k :: i < k < j && log[k].Admitted? && log[k].session != log[i].session)
      && (forall j | 0 <= j < |log| :: log[j].Sent? ==>
            exists i :: 0 <= i < j && log[i] == Unblocked(log[j].session) && NoOther(log, log[j].session, i, j))
  {
    EveryRunKeepsInv(es);
    var log := Exec(Initial, es).log;
    forall i, j | 0 <= i < j < |log| && log[i].Unblocked? && log[j] == log[i]
      ensures exists k :: i < k < j && log[k].Admitted? && log[k].session != log[i].session
    {
      assert !NoOther(log, log[i].session, i, j);
    }
    forall j | 0 <= j < |log| && log[j].Sent?
      ensures exists i :: 0 <= i < j && log[i] == Unblocked(log[j].session) && NoOther(log, log[j].session, i, j)
    {
      var i :| UnblockedBefore(log, i, j);
    }
  }

  /** Every step and every push of one cycle is in one scope, whatever the key material says in between. */
  lemma OneScopePerCycle(es: seq<Event>, i: nat, j: nat)
    requires var log := Exec(Initial, es).log;
      i < |log| && j < |log| && (log[i].Ran? || log[i].Sent?) && (log[j].Ran? || log[j].Sent?) &&
        log[i].cycle == log[j].cycle
    ensures var log := Exec(Initial, es).log; log[i].scope == log[j].scope
  {
    EveryRunKeepsInv(es);
    assert InCycle(Exec(Initial, es).log[j], Exec(Initial, es).log[i].cycle);
  }

  // ---- the course of a cycle -------------------------------------------------------------------

  predicate SaysPullDone(p: Progress) { (p.Pull? && p.pull.PullDone?) || (p.Pushed? && p.pull.PullDone?) }

  predicate AsksToPull(p: Progress) { (p.Pull? && p.pull.PullRequest?) || (p.Pushed? && p.pull.PullRequest?) }

  predicate SaysChecked(p: Progress) { p.Checkpoint? && p.check.CheckDone? }

  predicate AsksToCheck(p: Progress) { p.Checkpoint? && p.check.CheckRequest? }

  /** What an answer about pushing or pulling reports of more work. */
  predicate Reports(answer: Option<Progress>)
  {
    && answer.Some?
    && ((answer.value.Pushed? && answer.value.more) || (SaysPullDone(answer.value) && answer.value.pull.more))
  }

  /** The last turns, as many as belong to cycle `n`, reported more work to push or pull. */
  predicate MoreReported(turns: seq<Turn>, n: nat)
  {
    && turns != [] && turns[|turns| - 1].cycle == n
    && (Reports(turns[|turns| - 1].answer) || MoreReported(turns[..|turns| - 1], n))
  }

  /** Which step an answer calls for: pushing ends once pushed, a pull goes on until it is done, then the checkpoint,
      then the end; and a network call that failed gives the cycle up. */
  predicate CalledFor(p: Progress, t: Turn, more: bool)
  {
    && (t.action.FinishPush? <==> p.Push?)
    && (t.action.BeginCheckpoint? <==> SaysPullDone(p))
    && (t.action.Finish? <==> SaysChecked(p)) && (t.action.Finish? ==> (t.action.more <==> more || p.check.more))
    && (t.action.HaveCertificates? <==> p.Certificates? && t.world.network)
    && (t.action.FinishPull? <==> AsksToPull(p) && t.world.network)
    && (t.action.FinishCheckpoint? <==> AsksToCheck(p) && t.world.network)
    && (t.action.GiveUp? <==> (p.Certificates? || AsksToPull(p) || AsksToCheck(p)) && !t.world.network)
    && !t.action.Begin? && !Final(p)
  }

  /** What the worker answers when it does: only a due operation is pushed, only an engine that is done says so, and its
      reports are passed on. */
  predicate Told(t: Turn)
  {
    t.answer.Some? ==>
      var p, w := t.answer.value, t.world;
      && w.delivered && w.authorized && w.answered && w.material.Some?
      && (t.action.Begin? <==> p.Certificates?)
      && (t.action.HaveCertificates? ==>
            && w.engine && (p.Push? <==> w.due) && (p.Push? || p.Pull?)
            && (SaysPullDone(p) <==> w.done && !w.due))
      && (t.action.FinishPush? ==> w.engine && p.Pushed? && p.more == w.more && (SaysPullDone(p) <==> w.done))
      && (t.action.FinishPull? ==> w.engine && p.Pull? && (SaysPullDone(p) <==> w.done))
      && (SaysPullDone(p) ==> p.pull.more == w.more)
      && (t.action.BeginCheckpoint? || t.action.FinishCheckpoint? ==>
            w.engine && p.Checkpoint? && (SaysChecked(p) <==> w.done) && (SaysChecked(p) ==> p.check.more == w.more))
      && (t.action.Finish? ==> w.engine && p == Complete(t.action.more || w.due))
      && (t.action.GiveUp? <==> p.Failed?)
  }

  predicate Opens(turns: seq<Turn>, i: nat)
    requires i < |turns|
  {
    i == 0 || turns[i - 1].cycle != turns[i].cycle
  }

  /** Turn `i` is the first of its cycle and begins it, or is the one the answer before it calls for. */
  predicate InCourse(turns: seq<Turn>, i: nat)
    requires i < |turns|
  {
    && Told(turns[i])
    && if Opens(turns, i) then turns[i].action.Begin?
       else turns[i - 1].answer.Some? &&
            CalledFor(turns[i - 1].answer.value, turns[i], MoreReported(turns[..i], turns[i].cycle))
  }

  predicate AllInCourse(turns: seq<Turn>) { forall i | 0 <= i < |turns| :: InCourse(turns, i) }

  /** The running cycle waits where its last answer left it. */
  predicate Awaits(turns: seq<Turn>, n: nat, c: Cycle)
  {
    && c.more == MoreReported(turns, n)
    && if turns == [] || turns[|turns| - 1].cycle != n then c.progress.None?
       else
         var answer := turns[|turns| - 1].answer;
         && answer.Some? && !Final(answer.value)
         && c.progress == Some(if answer.value.Pushed? then Pull(answer.value.pull) else answer.value)
  }

  ghost predicate Coursed(s: State)
  {
    && AllInCourse(s.turns) && (forall i | 0 <= i < |s.turns| :: s.turns[i].cycle <= s.cycles)
    && (s.cycle.Some? ==> Awaits(s.turns, s.cycles, s.cycle.value))
  }

  lemma CourseAppends(turns: seq<Turn>, t: Turn)
    requires AllInCourse(turns) && InCourse(turns + [t], |turns|)
    ensures AllInCourse(turns + [t])
  {
    forall i | 0 <= i < |turns| ensures InCourse(turns + [t], i)
    {
      assert InCourse(turns, i) && (turns + [t])[..i] == turns[..i];
    }
  }

  /** The turn a submission adds. */
  function TurnOf(s: State, c: Cycle, w: World): Turn
  {
    var r := Apply(c.authority, Expected(c), NextAction(c, w), w, s.cycles, SendLog(c, s.cycles, s.log));
    Turn(s.cycles, NextAction(c, w), w, if w.delivered && w.answered then r.progress else None)
  }

  lemma TurnIsInCourse(s: State, w: World)
    requires Coursed(s) && s.cycle.Some?
    ensures InCourse(s.turns + [TurnOf(s, s.cycle.value, w)], |s.turns|)
  {
    var turns := s.turns + [TurnOf(s, s.cycle.value, w)];
    assert turns[..|s.turns|] == s.turns;
    assert turns[|s.turns|] == TurnOf(s, s.cycle.value, w);
    if s.turns != [] { assert turns[|s.turns| - 1] == s.turns[|s.turns| - 1]; }
  }

  lemma SubmitKeepsCourse(s: State, w: World)
    requires Coursed(s) && s.cycle.Some?
    ensures Coursed(Submitted(s, s.cycle.value, w))
  {
    var t := TurnOf(s, s.cycle.value, w);
    TurnIsInCourse(s, w);
    CourseAppends(s.turns, t);
    assert (s.turns + [t])[..|s.turns|] == s.turns;
    assert Submitted(s, s.cycle.value, w).turns == s.turns + [t];
  }

  lemma {:induction false} EveryRunKeepsCourse(es: seq<Event>)
    ensures Coursed(Exec(Initial, es))
  {
    if es != [] {
      EveryRunKeepsCourse(es[..|es| - 1]);
      var t := Exec(Initial, es[..|es| - 1]);
      if Enabled(t, es[|es| - 1]) && es[|es| - 1].Submit? { SubmitKeepsCourse(t, es[|es| - 1].world); }
    }
  }

  /** In every run each turn of a cycle is the one its predecessor's answer calls for, and each answer is what the step
      and its circumstances make it. */
  lemma EveryTurnIsInCourse(es: seq<Event>, i: nat)
    requires i < |Exec(Initial, es).turns|
    ensures InCourse(Exec(Initial, es).turns, i)
  {
    EveryRunKeepsCourse(es);
  }

  predicate OneCycle(turns: seq<Turn>, i: int, j: int)
    requires 0 <= i <= j < |turns|
  {
    forall k | i <= k <= j :: turns[k].cycle == turns[j].cycle
  }

  /** Back from a checkpoint step to the one that began it. */
  lemma {:induction false} CheckpointBegan(turns: seq<Turn>, j: nat) returns (m: nat)
    requires AllInCourse(turns) && j < |turns|
    requires turns[j].action.BeginCheckpoint? || turns[j].action.FinishCheckpoint?
    ensures m <= j && turns[m].action.BeginCheckpoint? && OneCycle(turns, m, j)
    decreases j
  {
    assert InCourse(turns, j);
    if turns[j].action.BeginCheckpoint? {
      m := j;
    } else {
      assert InCourse(turns, j - 1);
      m := CheckpointBegan(turns, j - 1);
    }
  }

  /** Back from any step after the certificates to the step that brought them. */
  lemma {:induction false} CertificatesCame(turns: seq<Turn>, j: nat) returns (m: nat)
    requires AllInCourse(turns) && j < |turns| && !turns[j].action.GiveUp? && !turns[j].action.Begin?
    ensures 0 < m <= j && turns[m].action.HaveCertificates? && turns[m - 1].action.Begin? && OneCycle(turns, m - 1, j)
    decreases j
  {
    assert InCourse(turns, j) && InCourse(turns, j - 1);
    if turns[j].action.HaveCertificates? {
      m := j;
    } else {
      m := CertificatesCame(turns, j - 1);
    }
  }

  /** No stage is skipped: in every run a cycle that is told to finish began, had its certificates, was told that its
      pull was done, began its checkpoint right then, and was told that it was done, in that order; and it is told of
      more work exactly when some answer in between reported it. */
  lemma FinishComesLast(es: seq<Event>, j: nat) returns (certificates: nat, checkpoint: nat)
    requires j < |Exec(Initial, es).turns| && Exec(Initial, es).turns[j].action.Finish?
    ensures var turns := Exec(Initial, es).turns;
      && 0 < certificates < checkpoint < j && OneCycle(turns, certificates - 1, j)
      && turns[certificates - 1].action.Begin? && turns[certificates].action.HaveCertificates?
      && turns[checkpoint].action.BeginCheckpoint?
      && turns[checkpoint - 1].answer.Some? && SaysPullDone(turns[checkpoint - 1].answer.value)
      && turns[j - 1].answer.Some? && SaysChecked(turns[j - 1].answer.value)
      && (turns[j].action.more <==>
            MoreReported(turns[..j], turns[j].cycle) || turns[j - 1].answer.value.check.more)
  {
    EveryRunKeepsCourse(es);
    var turns := Exec(Initial, es).turns;
    assert InCourse(turns, j) && InCourse(turns, j - 1);
    checkpoint := CheckpointBegan(turns, j - 1);
    assert InCourse(turns, checkpoint) && InCourse(turns, checkpoint - 1);
    certificates := CertificatesCame(turns, checkpoint - 1);
  }

  /** An authority takes certificates once: whatever the first step with them came to, another leaves all as it is. */
  lemma CertificatesAreTakenOnce(a: Authority, scope: Scope, w: World, log: seq<Entry>, again: World)
    ensures var r := Certify(a, scope, w, log);
      Certify(r.authority, scope, again, r.log) == Applied(r.authority, r.log, None)
  {
  }

  /** A wake-up with no cycle running opens the next one for its session, which counts as changed exactly when the
      outbox was not unblocked for it since another was admitted. */
  lemma WakeOpensTheNextCycle(es: seq<Event>, session: Session, w: World)
    requires Exec(Initial, es).cycle.None?
    ensures var s := Exec(Initial, es); var t := Step(s, Wake(session));
      && t.cycle.Some? && t.cycle.value.authority.session == session && NextAction(t.cycle.value, w).Begin?
      && (t.cycle.value.authority.changed <==> !exists i :: Open(s.log, i, session))
      && t.cycles == s.cycles + 1 && t.log == s.log && t.turns == s.turns
  {
    EveryRunKeepsInv(es);
  }

  lemma HandedBackExactlyWhen(c: Cycle, w: World, n: nat, log: seq<Entry>)
    requires Proper(c)
    ensures var action := NextAction(c, w);
      Apply(c.authority, Expected(c), action, w, n, log).progress.Some? <==>
        && w.authorized && w.material.Some? && (c.scope.Some? ==> w.material == c.scope)
        && (action.HaveCertificates? ==> w.unblocks || !c.authority.changed)
        && (w.engine || action.Begin? || action.GiveUp?)
  {
  }

  /** A step is answered, in every run, exactly when it is delivered, authorized and answered in the scope of its cycle,
      the engine's work succeeds, and, for the certificates of a new session, the outbox is unblocked. */
  lemma AnsweredExactlyWhen(es: seq<Event>, w: World)
    requires Exec(Initial, es).cycle.Some?
    ensures var s := Exec(Initial, es); var c := s.cycle.value; var turns := Step(s, Submit(w)).turns;
      && |turns| == |s.turns| + 1 && turns[..|s.turns|] == s.turns
      && var t := turns[|s.turns|];
         && t.cycle == s.cycles && t.world == w
         && (t.answer.Some? <==>
               && w.delivered && w.authorized && w.answered && w.material.Some?
               && (c.scope.Some? ==> w.material == c.scope)
               && (t.action.HaveCertificates? ==> w.unblocks || s.lastSession == Some(c.authority.session))
               && (w.engine || t.action.Begin? || t.action.GiveUp?))
         && (Step(s, Submit(w)).cycle.Some? <==> t.answer.Some? && !Final(t.answer.value))
  {
    EveryRunKeepsInv(es);
    var s := Exec(Initial, es);
    HandedBackExactlyWhen(s.cycle.value, w, s.cycles, SendLog(s.cycle.value, s.cycles, s.log));
    assert Step(s, Submit(w)).turns == s.turns + [TurnOf(s, s.cycle.value, w)];
  }

  // ---- pushes and their steps ------------------------------------------------------------------

  /** A push step comes right after its push, and after a push comes no other step of that cycle. */
  predicate PairedAt(log: seq<Entry>, i: int)
    requires 0 <= i < |log| && log[i].Ran?
  {
    log[i].action.FinishPush? <==> i > 0 && log[i - 1].Sent? && log[i - 1].cycle == log[i].cycle
  }

  predicate Paired(log: seq<Entry>) { forall i | 0 <= i < |log| && log[i].Ran? :: PairedAt(log, i) }

  ghost predicate PushesPaired(s: State)
  {
    && Paired(s.log)
    && (forall i | 0 <= i < |s.log| && s.log[i].Sent? :: s.log[i].cycle <= s.cycles)
    && (s.cycle.Some? && s.log != [] && s.log[|s.log| - 1].Sent? ==> s.log[|s.log| - 1].cycle < s.cycles)
  }

  lemma PairedAppends(log: seq<Entry>, e: Entry)
    requires Paired(log)
    requires e.Ran? ==> (e.action.FinishPush? <==> log != [] && log[|log| - 1].Sent? && log[|log| - 1].cycle == e.cycle)
    ensures Paired(log + [e])
  {
    var more := log + [e];
    forall i | 0 <= i < |more| && more[i].Ran? ensures PairedAt(more, i)
    {
      assert i > 0 ==> more[i - 1] == log[i - 1];
      if i < |log| { assert more[i] == log[i] && PairedAt(log, i); }
    }
  }

  lemma CertifyKeepsPairs(a: Authority, scope: Scope, w: World, log: seq<Entry>)
    requires Paired(log)
    ensures var r := Certify(a, scope, w, log);
      && Paired(r.log) && log <= r.log && (forall k | |log| <= k < |r.log| :: !r.log[k].Sent?)
  {
    PairedAppends(log, Unblocked(a.session));
    PairedAppends(log, Admitted(a.session));
    PairedAppends(log + [Unblocked(a.session)], Admitted(a.session));
  }

  lemma ApplyKeepsPairs(c: Cycle, w: World, n: nat, log: seq<Entry>)
    requires Paired(log)
    requires NextAction(c, w).FinishPush? <==> log != [] && log[|log| - 1].Sent? && log[|log| - 1].cycle == n
    ensures var r := Apply(c.authority, Expected(c), NextAction(c, w), w, n, log);
      && Paired(r.log) && log <= r.log && (forall k | |log| <= k < |r.log| :: !r.log[k].Sent?)
      && (r.progress.Some? ==> |log| < |r.log|)
  {
    if w.material.Some? {
      var ran := Ran(n, w.material.value, NextAction(c, w));
      PairedAppends(log, ran);
      CertifyKeepsPairs(c.authority, w.material.value, w, log + [ran]);
    }
  }

  lemma SubmitKeepsPairs(s: State, w: World)
    requires PushesPaired(s) && s.cycle.Some?
    ensures PushesPaired(Submitted(s, s.cycle.value, w))
  {
    var c := s.cycle.value;
    var log := SendLog(c, s.cycles, s.log);
    if c.progress.Some? && c.progress.value.Push? {
      PairedAppends(s.log, Sent(c.authority.session, s.cycles, c.progress.value.scope));
    }
    ApplyKeepsPairs(c, w, s.cycles, log);
  }

  lemma {:induction false} EveryRunKeepsPairs(es: seq<Event>)
    ensures PushesPaired(Exec(Initial, es))
  {
    if es != [] {
      EveryRunKeepsPairs(es[..|es| - 1]);
      var t := Exec(Initial, es[..|es| - 1]);
      if Enabled(t, es[|es| - 1]) && es[|es| - 1].Submit? { SubmitKeepsPairs(t, es[|es| - 1].world); }
    }
  }

  /** In every run the worker finishes a push exactly in the step right after that push went out. */
  lemma PushIsFinishedNext(es: seq<Event>, i: nat)
    requires i < |Exec(Initial, es).log| && Exec(Initial, es).log[i].Ran?
    ensures var log := Exec(Initial, es).log;
      log[i].action.FinishPush? <==> i > 0 && log[i - 1].Sent? && log[i - 1].cycle == log[i].cycle
  {
    EveryRunKeepsPairs(es);
    assert PairedAt(Exec(Initial, es).log, i);
  }

  // ---- the supervisor ------------------------------------------------------------------------

  /** One authority, shared by the cycle and the worker. */
  class SharedAuthority {
    const session: Session
    const changed: bool
    var certified: bool
    var admitted: bool

    ghost function Value(): Authority reads this { Authority(session, changed, certified, admitted) }

    constructor (session: Session, changed: bool)
      ensures Value() == Authority(session, changed, false, false)
    {
      this.session, this.changed, certified, admitted := session, changed, false, false;
    }
  }

  /** `apply`: the step as the vault worker runs it. */
  method ApplyStep(authority: SharedAuthority, expected: Option<Scope>, action: Action, w: World, ghost n: nat,
                   ghost log: seq<Entry>)
    returns (progress: Option<Progress>, ghost after: seq<Entry>)
    modifies authority
    ensures Applied(authority.Value(), after, progress) == Apply(old(authority.Value()), expected, action, w, n, log)
  {
    after := log;
    if !w.authorized || w.material.None? {
      return None, after;
    }
    var scope := w.material.value;
    if expected.Some? && expected.value != scope {
      return None, after;
    }
    after := after + [Ran(n, scope, action)];
    match action {
      case Begin => progress := Some(Certificates(scope));
      case HaveCertificates =>
        if authority.certified {
          return None, after;
        }
        authority.certified := true;
        if authority.changed {
          if !w.unblocks {
            return None, after;
          }
          after := after + [Unblocked(authority.session)];
        }
        authority.admitted := true;
        after := after + [Admitted(authority.session)];
        progress := if !w.engine then None else if w.due then Some(Push(scope)) else Some(Pull(NextPull(w, scope)));
      case FinishPush => progress := if w.engine then Some(Pushed(w.more, NextPull(w, scope))) else None;
      case FinishPull => progress := if w.engine then Some(Pull(NextPull(w, scope))) else None;
      case BeginCheckpoint => progress := if w.engine then Some(Checkpoint(NextCheck(w, scope))) else None;
      case FinishCheckpoint => progress := if w.engine then Some(Checkpoint(NextCheck(w, scope))) else None;
      case Finish(more) => progress := if w.engine then Some(Complete(more || w.due)) else None;
      case GiveUp => progress := Some(Failed);
    }
  }

  function Submits(worlds: seq<World>): seq<Event> { seq(|worlds|, i requires 0 <= i < |worlds| => Submit(worlds[i])) }

  lemma ExecStep(s: State, es: seq<Event>, e: Event)
    ensures var t := Exec(s, es); Exec(s, es + [e]) == if Enabled(t, e) then Step(t, e) else t
  {
    assert (es + [e])[..|es|] == es;
  }

  lemma ExecSubmit(s: State, worlds: seq<World>, i: nat)
    requires i < |worlds|
    ensures var t := Exec(s, Submits(worlds)[..i]);
      Exec(s, Submits(worlds)[..i + 1]) == if t.cycle.Some? then Submitted(t, t.cycle.value, worlds[i]) else t
  {
    var events := Submits(worlds);
    assert events[..i + 1] == events[..i] + [events[i]];
    ExecStep(s, events[..i], events[i]);
  }

  /** Without a running cycle further steps are not taken. */
  lemma {:induction false} NothingAfterTheEnd(s: State, worlds: seq<World>, k: nat)
    requires k <= |worlds| && Exec(s, Submits(worlds)[..k]).cycle.None?
    ensures Exec(s, Submits(worlds)) == Exec(s, Submits(worlds)[..k])
    decreases |worlds| - k
  {
    var events := Submits(worlds);
    if k < |worlds| {
      ExecSubmit(s, worlds, k);
      NothingAfterTheEnd(s, worlds, k + 1);
    } else {
      assert events[..k] == events;
    }
  }

  class Supervisor {
    var lastSession: Option<Session>
    ghost var cycles: nat
    ghost var log: seq<Entry>
    ghost var turns: seq<Turn>

    /** The supervisor with a running cycle, or none. */
    ghost function During(cycle: Option<Cycle>): State reads this { State(lastSession, cycle, cycles, log, turns) }

    constructor ()
      ensures During(None) == Initial
    {
      lastSession, cycles, log, turns := None, 0, [], [];
    }

    /** One turn of the loop in `cycle`: the network call, the step, and the answer; no cycle is left when it ends. */
    method TakeTurn(authority: SharedAuthority, progress: Option<Progress>, more: bool, scope: Option<Scope>, w: World)
      returns (next: Option<Cycle>)
      modifies this`log, this`turns, authority
      ensures var c := Cycle(old(authority.Value()), progress, more, scope);
        Submitted(old(During(Some(c))), c, w) ==
        (if next.Some? then During(next) else During(None).(lastSession := Latest(authority.Value(), lastSession)))
      ensures next.Some? ==> next.value.authority == authority.Value()
    {
      var c := Cycle(Authority(authority.session, authority.changed, authority.certified, authority.admitted),
               progress, more, scope);
      log := SendLog(c, cycles, log);
      if !w.delivered {
        turns := turns + [Turn(cycles, NextAction(c, w), w, None)];
        return None;
      }
      var answer;
      answer, log := ApplyStep(authority, Expected(c), NextAction(c, w), w, cycles, log);
      turns := turns + [Turn(cycles, NextAction(c, w), w, if w.answered then answer else None)];
      if !w.answered || answer.None? || Final(answer.value) {
        return None;
      }
      var a := Authority(authority.session, authority.changed, authority.certified, authority.admitted);
      next := Some(Resume(c.(authority := a), answer.value));
    }

    /** One pass of `run` with a session, the cycle faring as `worlds` says; if they run out first the cycle is left
        unfinished. Without a session `run` does nothing but report itself offline. */
    method RunCycle(session: Session, worlds: seq<World>) returns (unfinished: Option<Cycle>)
      modifies this
      ensures During(unfinished) == Exec(Step(old(During(None)), Wake(session)), Submits(worlds))
    {
      ghost var start := Step(During(None), Wake(session));
      var authority := new SharedAuthority(session, lastSession != Some(session));
      var cycle := Cycle(Authority(session, lastSession != Some(session), false, false), None, false, None);
      cycles := cycles + 1;
      ghost var events := Submits(worlds);
      for i := 0 to |worlds|
        invariant fresh(authority) && authority.session == session && cycle.authority == authority.Value()
        invariant During(Some(cycle)) == Exec(start, events[..i])
      {
        ExecSubmit(start, worlds, i);
        var next := TakeTurn(authority, cycle.progress, cycle.more, cycle.scope, worlds[i]);
        if next.None? {
          if authority.admitted {
            lastSession := Some(session);
          }
          NothingAfterTheEnd(start, worlds, i + 1);
          return None;
        }
        cycle := next.value;
      }
      assert events[..|worlds|] == events;
      unfinished := Some(cycle);
    }
  }
}
