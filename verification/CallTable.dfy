/** The table of in-flight tool calls of the MCP bridge (`Server` in crates/context-mcp/src/server.rs), as a
    transition system whose steps are the sections run under the table's lock, plus the two points where
    a task ends and drops its permit. JSON-RPC ids may be reused by the client; local ids are fresh UUIDs. */
module CallTable {

  const MAX_IN_FLIGHT: nat := 64

  datatype RpcId = Number(value: int) | Text(text: string)

  type LocalId = int

  datatype ActiveCall = ActiveCall(local: LocalId, cancelDispatched: bool, holdsCancelPermit: bool)

  /** A spawned `dispatch_call`; `done` once its completion section ran but its permit is not yet dropped. */
  datatype Dispatch = Dispatch(rpc: RpcId, done: bool)

  datatype Answer = Answer(rpc: RpcId, local: LocalId)

  datatype State = State(
    active: map<RpcId, ActiveCall>,
    freeCalls: nat,
    freeCancels: nat,
    dispatches: map<LocalId, Dispatch>,
    cancelTasks: set<LocalId>,
    canceled: set<LocalId>,        // the shared flag of each call, by local id
    sent: seq<Answer>,             // what the writer queue received
    cancels: seq<LocalId>,         // what the daemon was asked to cancel
    admitted: map<LocalId, RpcId>, // every call ever let in
    lost: set<LocalId>)            // finished, not canceled, but unsendable

  datatype Event =
    | Admit(rpc: RpcId, local: LocalId)
    | Cancel(rpc: RpcId)
    | Complete(local: LocalId, writerOpen: bool, encodes: bool)
    | EndDispatch(local: LocalId)
    | EndCancel(local: LocalId)

  datatype Reply = Duplicate | Busy | Started

  const Initial: State :=
    State(map[], MAX_IN_FLIGHT, MAX_IN_FLIGHT, map[], {}, {}, [], [], map[], {})

  function AdmitReply(s: State, rpc: RpcId): Reply
  {
    if rpc in s.active then Duplicate
    else if s.freeCalls == 0 || s.freeCancels == 0 then Busy
    else Started
  }

  predicate Current(s: State, local: LocalId)
    requires local in s.dispatches
  {
    var rpc := s.dispatches[local].rpc;
    rpc in s.active && s.active[rpc].local == local
  }

  predicate Enabled(s: State, e: Event)
  {
    match e
    case Admit(_, local) => local !in s.admitted
    case Cancel(_) => true
    case Complete(local, _, _) => local in s.dispatches && !s.dispatches[local].done
    case EndDispatch(local) => local in s.dispatches && s.dispatches[local].done
    case EndCancel(local) => local in s.cancelTasks
  }

  function Admitting(s: State, rpc: RpcId, local: LocalId): State
  {
    if !AdmitReply(s, rpc).Started? then s
    else s.(active := s.active[rpc := ActiveCall(local, false, true)],
            freeCalls := s.freeCalls - 1,
            freeCancels := s.freeCancels - 1,
            dispatches := s.dispatches[local := Dispatch(rpc, false)],
            admitted := s.admitted[local := rpc])
  }

  function Canceling(s: State, rpc: RpcId): State
  {
    if rpc !in s.active then s
    else
      var call := s.active[rpc];
      var flagged := s.(canceled := s.canceled + {call.local});
      if call.cancelDispatched then flagged
      else flagged.(active := s.active[rpc := call.(cancelDispatched := true, holdsCancelPermit := false)],
                    cancelTasks := s.cancelTasks + {call.local},
                    cancels := s.cancels + [call.local])
  }

  function Completing(s: State, local: LocalId, deliverable: bool): State
    requires local in s.dispatches
  {
    var rpc := s.dispatches[local].rpc;
    var finished := s.(dispatches := s.dispatches[local := Dispatch(rpc, true)]);
    if !Current(s, local) then finished
    else
      var sends := local !in s.canceled && deliverable;
      finished.(active := s.active - {rpc},
                freeCancels := s.freeCancels + if s.active[rpc].holdsCancelPermit then 1 else 0,
                sent := if sends then s.sent + [Answer(rpc, local)] else s.sent,
                lost := if local !in s.canceled && !deliverable then s.lost + {local} else s.lost)
  }

  function Step(s: State, e: Event): State
    requires Enabled(s, e)
  {
    match e
    case Admit(rpc, local) => Admitting(s, rpc, local)
    case Cancel(rpc) => Canceling(s, rpc)
    case Complete(local, writerOpen, encodes) => Completing(s, local, writerOpen && encodes)
    case EndDispatch(local) => s.(dispatches := s.dispatches - {local}, freeCalls := s.freeCalls + 1)
    case EndCancel(local) => s.(cancelTasks := s.cancelTasks - {local}, freeCancels := s.freeCancels + 1)
  }

  /** The server's shared fields. Each method is one locked section (or one permit drop). */
  class Server {
    var active: map<RpcId, ActiveCall>
    var callPermits: nat
    var cancelPermits: nat
    var dispatches: map<LocalId, Dispatch>
    var cancelTasks: set<LocalId>
    var canceled: set<LocalId>
    var queue: seq<Answer>
    var daemonCancels: seq<LocalId>
    ghost var admitted: map<LocalId, RpcId>
    ghost var lost: set<LocalId>

    ghost function Snapshot(): State
      reads this
    {
      State(active, callPermits, cancelPermits, dispatches, cancelTasks, canceled, queue, daemonCancels,
            admitted, lost)
    }

    constructor ()
      ensures Snapshot() == Initial
    {
      active, callPermits, cancelPermits := map[], MAX_IN_FLIGHT, MAX_IN_FLIGHT;
      dispatches, cancelTasks, canceled, queue, daemonCancels := map[], {}, {}, [], [];
      admitted, lost := map[], {};
    }

    /** The admission section of `call_tool`, after the lifecycle, parameter and rate checks passed. */
    method CallTool(rpc: RpcId, local: LocalId) returns (reply: Reply)
      requires Enabled(Snapshot(), Admit(rpc, local))
      modifies this
      ensures Snapshot() == Step(old(Snapshot()), Admit(rpc, local))
      ensures reply == AdmitReply(old(Snapshot()), rpc)
    {
      if rpc in active {
        return Duplicate;
      }
      if callPermits == 0 {
        return Busy;
      }
      callPermits := callPermits - 1;
      if cancelPermits == 0 {
        callPermits := callPermits + 1; // the call permit is dropped on this path
        return Busy;
      }
      cancelPermits := cancelPermits - 1;
      active := active[rpc := ActiveCall(local, false, true)];
      dispatches := dispatches[local := Dispatch(rpc, false)];
      admitted := admitted[local := rpc];
      return Started;
    }

    /** `cancelled`, reached from the reader or from `handle_backpressured_cancel`. */
    method Cancelled(rpc: RpcId)
      requires Inv(Snapshot())
      modifies this
      ensures Snapshot() == Step(old(Snapshot()), Cancel(rpc))
    {
      if rpc in active {
        var call := active[rpc];
        canceled := canceled + {call.local};
        if !call.cancelDispatched {
          assert call.holdsCancelPermit; // the `expect` in the source cannot fail
          active := active[rpc := call.(cancelDispatched := true, holdsCancelPermit := false)];
          cancelTasks := cancelTasks + {call.local};
          daemonCancels := daemonCancels + [call.local];
        }
      }
    }

    /** The closing section of `dispatch_call`. */
    method CompleteCall(local: LocalId, writerOpen: bool, encodes: bool)
      requires Enabled(Snapshot(), Complete(local, writerOpen, encodes))
      modifies this
      ensures Snapshot() == Step(old(Snapshot()), Complete(local, writerOpen, encodes))
    {
      var rpc := dispatches[local].rpc;
      var stillCurrent := rpc in active && active[rpc].local == local;
      dispatches := dispatches[local := Dispatch(rpc, true)];
      if stillCurrent {
        if local !in canceled {
          queue := if writerOpen && encodes then queue + [Answer(rpc, local)] else queue;
          lost := if writerOpen && encodes then lost else lost + {local};
        }
        cancelPermits := cancelPermits + if active[rpc].holdsCancelPermit then 1 else 0;
        active := active - {rpc};
      }
    }

    method DropCallPermit(local: LocalId)
      requires Enabled(Snapshot(), EndDispatch(local))
      modifies this
      ensures Snapshot() == Step(old(Snapshot()), EndDispatch(local))
    {
      dispatches := dispatches - {local};
      callPermits := callPermits + 1;
    }

    method DropCancelPermit(local: LocalId)
      requires Enabled(Snapshot(), EndCancel(local))
      modifies this
      ensures Snapshot() == Step(old(Snapshot()), EndCancel(local))
    {
      cancelTasks := cancelTasks - {local};
      cancelPermits := cancelPermits + 1;
    }
  }

  // ----- The inductive invariant -----

  /** Table entries that still own the permit reserved for canceling them. */
  function Holders(active: map<RpcId, ActiveCall>): set<RpcId>
  {
    set rpc | rpc in active && active[rpc].holdsCancelPermit
  }

  ghost predicate PermitsConserved(s: State)
  {
    && s.freeCalls + |s.dispatches.Keys| == MAX_IN_FLIGHT
    && s.freeCancels + |Holders(s.active)| + |s.cancelTasks| == MAX_IN_FLIGHT
  }

  predicate Running(dispatches: map<LocalId, Dispatch>, local: LocalId)
  {
    local in dispatches && !dispatches[local].done
  }

  /** Entries and unfinished tasks are matched one to one by local id. */
  ghost predicate Matched(active: map<RpcId, ActiveCall>, dispatches: map<LocalId, Dispatch>)
  {
    && (forall rpc | rpc in active ::
          active[rpc].local in dispatches && dispatches[active[rpc].local] == Dispatch(rpc, false))
    && (forall local | Running(dispatches, local) ::
          dispatches[local].rpc in active && active[dispatches[local].rpc].local == local)
  }

  /** An entry gives up its permit exactly when it is canceled. */
  ghost predicate FlagsAgree(active: map<RpcId, ActiveCall>, canceled: set<LocalId>)
  {
    forall rpc | rpc in active ::
      && active[rpc].cancelDispatched == !active[rpc].holdsCancelPermit
      && active[rpc].cancelDispatched == (active[rpc].local in canceled)
  }

  ghost predicate CancelsLogged(canceled: set<LocalId>, cancels: multiset<LocalId>, cancelTasks: set<LocalId>)
  {
    && (forall local :: cancels[local] == if local in canceled then 1 else 0)
    && cancelTasks <= canceled
  }

  predicate Answered(s: State, local: LocalId)
  {
    local in s.admitted && Answer(s.admitted[local], local) in multiset(s.sent)
  }

  /** Nothing is answered twice, under a foreign id, while still running, or after a cancellation. */
  ghost predicate AnswersSound(s: State, sent: multiset<Answer>)
  {
    forall a | a in sent ::
      && sent[a] == 1
      && a.local in s.admitted && s.admitted[a.local] == a.rpc
      && a.local !in s.canceled && a.local !in s.lost && !Running(s.dispatches, a.local)
  }

  ghost predicate TasksAdmitted(dispatches: map<LocalId, Dispatch>, admitted: map<LocalId, RpcId>)
  {
    forall local | local in dispatches :: local in admitted && admitted[local] == dispatches[local].rpc
  }

  ghost predicate FatesDisjoint(s: State)
  {
    && (forall local | local in s.canceled :: local in s.admitted && local !in s.lost)
    && (forall local | local in s.lost :: local in s.admitted && !Running(s.dispatches, local))
  }

  /** Every admitted call is in flight, canceled, answered or lost. */
  ghost predicate Accounted(s: State)
  {
    forall local | local in s.admitted ::
      Running(s.dispatches, local) || local in s.canceled || Answered(s, local) || local in s.lost
  }

  ghost predicate Inv(s: State)
  {
    && PermitsConserved(s)
    && Matched(s.active, s.dispatches)
    && FlagsAgree(s.active, s.canceled)
    && CancelsLogged(s.canceled, multiset(s.cancels), s.cancelTasks)
    && TasksAdmitted(s.dispatches, s.admitted)
    && FatesDisjoint(s)
    && AnswersSound(s, multiset(s.sent))
    && Accounted(s)
  }

  lemma InitialInv()
    ensures Inv(Initial)
  {
    assert Holders(Initial.active) == {};
    assert Initial.dispatches.Keys == {};
  }

  /** `still_current` in the source is always true. */
  lemma UnfinishedIsCurrent(s: State, local: LocalId)
    requires Matched(s.active, s.dispatches) && Running(s.dispatches, local)
    ensures Current(s, local)
  {
  }

  lemma MatchedWithNewCall(active: map<RpcId, ActiveCall>, dispatches: map<LocalId, Dispatch>, rpc: RpcId,
                           local: LocalId)
    requires Matched(active, dispatches) && rpc !in active && local !in dispatches
    ensures Matched(active[rpc := ActiveCall(local, false, true)], dispatches[local := Dispatch(rpc, false)])
  {
  }

  lemma OneMoreHolder(active: map<RpcId, ActiveCall>, rpc: RpcId, local: LocalId)
    requires rpc !in active
    ensures |Holders(active[rpc := ActiveCall(local, false, true)])| == |Holders(active)| + 1
  {
    assert Holders(active[rpc := ActiveCall(local, false, true)]) == Holders(active) + {rpc};
  }

  lemma OneMoreDispatch(dispatches: map<LocalId, Dispatch>, rpc: RpcId, local: LocalId)
    requires local !in dispatches
    ensures |dispatches[local := Dispatch(rpc, false)].Keys| == |dispatches.Keys| + 1
  {
    assert dispatches[local := Dispatch(rpc, false)].Keys == dispatches.Keys + {local};
  }

  lemma AdmitKeepsTable(s: State, rpc: RpcId, local: LocalId)
    requires Inv(s) && local !in s.admitted && AdmitReply(s, rpc).Started?
    ensures var t := Admitting(s, rpc, local);
            PermitsConserved(t) && Matched(t.active, t.dispatches) && FlagsAgree(t.active, t.canceled)
  {
    assert local !in s.dispatches;
    MatchedWithNewCall(s.active, s.dispatches, rpc, local);
    OneMoreHolder(s.active, rpc, local);
    OneMoreDispatch(s.dispatches, rpc, local);
  }

  lemma AdmitKeepsFates(s: State, rpc: RpcId, local: LocalId)
    requires Inv(s) && local !in s.admitted && AdmitReply(s, rpc).Started?
    ensures var t := Admitting(s, rpc, local);
            AnswersSound(t, multiset(t.sent)) && FatesDisjoint(t) && Accounted(t)
  {
    assert Admitting(s, rpc, local).sent == s.sent;
  }

  lemma AdmitKeepsInv(s: State, rpc: RpcId, local: LocalId)
    requires Inv(s) && local !in s.admitted
    ensures Inv(Admitting(s, rpc, local))
  {
    if AdmitReply(s, rpc).Started? {
      AdmitKeepsTable(s, rpc, local);
      AdmitKeepsFates(s, rpc, local);
    }
  }

  lemma CancelKeepsTable(s: State, rpc: RpcId)
    requires Inv(s) && rpc in s.active && !s.active[rpc].cancelDispatched
    ensures var t := Canceling(s, rpc);
            PermitsConserved(t) && Matched(t.active, t.dispatches) && FlagsAgree(t.active, t.canceled)
  {
    var t := Canceling(s, rpc);
    assert Holders(t.active) == Holders(s.active) - {rpc};
    assert Matched(t.active, t.dispatches);
  }

  lemma CancelKeepsInv(s: State, rpc: RpcId)
    requires Inv(s)
    ensures Inv(Canceling(s, rpc))
  {
    if rpc in s.active && !s.active[rpc].cancelDispatched {
      CancelKeepsTable(s, rpc);
      assert Running(s.dispatches, s.active[rpc].local);
    } else if rpc in s.active {
      assert Canceling(s, rpc) == s;
    }
  }

  lemma CompleteKeepsTable(s: State, local: LocalId, deliverable: bool)
    requires Inv(s) && Running(s.dispatches, local)
    ensures var t := Completing(s, local, deliverable);
            PermitsConserved(t) && Matched(t.active, t.dispatches) && FlagsAgree(t.active, t.canceled)
  {
    var t := Completing(s, local, deliverable);
    assert Holders(t.active) == Holders(s.active) - {s.dispatches[local].rpc};
    assert t.dispatches.Keys == s.dispatches.Keys;
    assert Matched(t.active, t.dispatches);
  }

  lemma CompleteKeepsAnswers(s: State, local: LocalId, deliverable: bool)
    requires Inv(s) && Running(s.dispatches, local)
    ensures var t := Completing(s, local, deliverable);
            TasksAdmitted(t.dispatches, t.admitted) && AnswersSound(t, multiset(t.sent))
  {
    UnfinishedIsCurrent(s, local);
  }

  lemma CompleteKeepsFates(s: State, local: LocalId, deliverable: bool)
    requires Inv(s) && Running(s.dispatches, local)
    ensures var t := Completing(s, local, deliverable); FatesDisjoint(t) && Accounted(t)
  {
    UnfinishedIsCurrent(s, local);
  }

  lemma CompleteKeepsInv(s: State, local: LocalId, deliverable: bool)
    requires Inv(s) && Running(s.dispatches, local)
    ensures Inv(Completing(s, local, deliverable))
  {
    CompleteKeepsTable(s, local, deliverable);
    CompleteKeepsAnswers(s, local, deliverable);
    CompleteKeepsFates(s, local, deliverable);
  }

  lemma EndKeepsInv(s: State, e: Event)
    requires Inv(s) && Enabled(s, e) && (e.EndDispatch? || e.EndCancel?)
    ensures Inv(Step(s, e))
  {
    var t := Step(s, e);
    if e.EndDispatch? {
      assert t.dispatches.Keys == s.dispatches.Keys - {e.local};
    }
    assert forall l :: Running(t.dispatches, l) == Running(s.dispatches, l);
  }

  lemma StepKeepsInv(s: State, e: Event)
    requires Inv(s) && Enabled(s, e)
    ensures Inv(Step(s, e))
  {
    match e {
      case Admit(rpc, local) => AdmitKeepsInv(s, rpc, local);
      case Cancel(rpc) => CancelKeepsInv(s, rpc);
      case Complete(local, writerOpen, encodes) => CompleteKeepsInv(s, local, writerOpen && encodes);
      case EndDispatch(_) => EndKeepsInv(s, e);
      case EndCancel(_) => EndKeepsInv(s, e);
    }
  }

  // ----- Whole runs -----

  /** The state after a run. Events that are not enabled cannot occur and are skipped. */
  function Exec(es: seq<Event>): State
  {
    if es == [] then Initial
    else
      var s := Exec(es[..|es| - 1]);
      var e := es[|es| - 1];
      if Enabled(s, e) then Step(s, e) else s
  }

  lemma {:induction false} EveryRunKeepsInv(es: seq<Event>)
    ensures Inv(Exec(es))
  {
    if es == [] {
      InitialInv();
    } else {
      var before := es[..|es| - 1];
      EveryRunKeepsInv(before);
      if Enabled(Exec(before), es[|es| - 1]) {
        StepKeepsInv(Exec(before), es[|es| - 1]);
      }
    }
  }

  /** In every run permits are conserved, every unfinished task is the current owner of its table entry,
      and an entry not yet canceled still owns the permit its cancellation will take. */
  lemma PermitsInEveryRun(es: seq<Event>)
    ensures var s := Exec(es);
            && s.freeCalls + |s.dispatches.Keys| == MAX_IN_FLIGHT
            && s.freeCancels + |Holders(s.active)| + |s.cancelTasks| == MAX_IN_FLIGHT
            && (forall local | Running(s.dispatches, local) :: Current(s, local))
            && (forall rpc | rpc in s.active ::
                  && Running(s.dispatches, s.active[rpc].local)
                  && s.dispatches[s.active[rpc].local].rpc == rpc
                  && (!s.active[rpc].cancelDispatched ==> s.active[rpc].holdsCancelPermit))
  {
    EveryRunKeepsInv(es);
    var s := Exec(es);
    forall local | Running(s.dispatches, local) ensures Current(s, local) {
      UnfinishedIsCurrent(s, local);
    }
  }

  /** Each admitted call that has finished met exactly one fate: answered once, canceled, or undeliverable. One that is
      running was neither answered nor found undeliverable; one that is canceled never is. */
  lemma OneFatePerCall(es: seq<Event>, local: LocalId)
    requires local in Exec(es).admitted
    ensures var s := Exec(es);
            var answers := multiset(s.sent)[Answer(s.admitted[local], local)];
            var running, canceled, lost := Running(s.dispatches, local), local in s.canceled, local in s.lost;
            && answers <= 1
            && (running ==> answers == 0 && !lost)
            && (canceled ==> answers == 0 && !lost)
            && (lost ==> answers == 0)
            && (!running ==> canceled || answers == 1 || lost)
            && multiset(s.cancels)[local] == (if canceled then 1 else 0)
  {
    EveryRunKeepsInv(es);
  }

  /** Nothing but its own request's id is ever answered. */
  lemma AnswersAreForAdmittedCalls(es: seq<Event>, k: nat)
    requires k < |Exec(es).sent|
    ensures var s := Exec(es);
            s.sent[k].local in s.admitted && s.admitted[s.sent[k].local] == s.sent[k].rpc
  {
    EveryRunKeepsInv(es);
    assert Exec(es).sent[k] in multiset(Exec(es).sent);
  }

  lemma StepOnlyAdds(s: State, e: Event)
    requires Inv(s) && Enabled(s, e)
    ensures s.canceled <= Step(s, e).canceled
    ensures forall local | local in s.admitted ::
              local in Step(s, e).admitted && Step(s, e).admitted[local] == s.admitted[local]
  {
  }

  lemma {:induction false} LaterStatesOnlyAdd(es: seq<Event>, i: nat)
    requires i <= |es|
    ensures Exec(es[..i]).canceled <= Exec(es).canceled
    ensures forall local | local in Exec(es[..i]).admitted ::
              local in Exec(es).admitted && Exec(es).admitted[local] == Exec(es[..i]).admitted[local]
  {
    if i == |es| {
      assert es[..i] == es;
    } else {
      var before := es[..|es| - 1];
      assert before[..i] == es[..i];
      LaterStatesOnlyAdd(before, i);
      EveryRunKeepsInv(before);
      if Enabled(Exec(before), es[|es| - 1]) {
        StepOnlyAdds(Exec(before), es[|es| - 1]);
      }
    }
  }

  /** A cancellation read while its call is in the table silences that call for good and is forwarded to the
      daemon exactly once, whatever the client does with the id afterwards. */
  lemma CanceledCallStaysSilent(es: seq<Event>, i: nat, rpc: RpcId)
    requires i < |es| && es[i] == Cancel(rpc) && rpc in Exec(es[..i]).active
    ensures var local := Exec(es[..i]).active[rpc].local;
            var s := Exec(es);
            && multiset(s.cancels)[local] == 1
            && (forall k | 0 <= k < |s.sent| :: s.sent[k].local != local)
  {
    var local := Exec(es[..i]).active[rpc].local;
    EveryRunKeepsInv(es[..i]);
    EveryRunKeepsInv(es);
    assert es[..i + 1][..i] == es[..i];
    assert local in Exec(es[..i + 1]).canceled;
    LaterStatesOnlyAdd(es, i + 1);
    forall k | 0 <= k < |Exec(es).sent| ensures Exec(es).sent[k].local != local {
      assert Exec(es).sent[k] in multiset(Exec(es).sent);
    }
  }

  /** Every daemon cancellation comes from a `notifications/cancelled` that named the call then active under
      that id. */
  lemma {:induction false} CancelsAreAimed(es: seq<Event>, k: nat) returns (i: nat, rpc: RpcId)
    requires k < |Exec(es).cancels|
    ensures i < |es| && es[i] == Cancel(rpc)
    ensures rpc in Exec(es[..i]).active && Exec(es[..i]).active[rpc].local == Exec(es).cancels[k]
    ensures Exec(es[..i]).cancels == Exec(es).cancels[..k]
  {
    var before, e := es[..|es| - 1], es[|es| - 1];
    if k < |Exec(before).cancels| {
      i, rpc := CancelsAreAimed(before, k);
      assert before[..i] == es[..i];
    } else {
      i, rpc := |es| - 1, e.rpc;
    }
  }

  /** In every reachable state, completing a call nobody canceled, with a reply that can be encoded and queued,
      answers it under its own id and frees that id. */
  lemma DeliverableCallIsAnswered(es: seq<Event>, local: LocalId)
    requires var s := Exec(es); Running(s.dispatches, local) && local !in s.canceled
    ensures var s, t := Exec(es), Exec(es + [Complete(local, true, true)]);
            && t.sent == s.sent + [Answer(s.dispatches[local].rpc, local)]
            && s.dispatches[local].rpc !in t.active
  {
    EveryRunKeepsInv(es);
    UnfinishedIsCurrent(Exec(es), local);
    var e := Complete(local, true, true);
    assert (es + [e])[..|es|] == es;
  }

  /** Completing a call whose reply cannot be sent, or that was canceled, sends nothing and frees its id as well. */
  lemma UndeliverableCallIsSilent(es: seq<Event>, local: LocalId, writerOpen: bool, encodes: bool)
    requires Running(Exec(es).dispatches, local) && (local in Exec(es).canceled || !writerOpen || !encodes)
    ensures var s := Exec(es); var t := Step(s, Complete(local, writerOpen, encodes));
            && t.sent == s.sent && t.cancels == s.cancels && s.dispatches[local].rpc !in t.active
            && (local in t.lost <==> local !in s.canceled)
  {
    EveryRunKeepsInv(es);
    UnfinishedIsCurrent(Exec(es), local);
  }

  /** How a call is received in every run: its id is a duplicate exactly when a call of that id is unfinished; otherwise
      there is no room exactly when 64 dispatches hold a permit, or 64 cancel permits are held or in use; and otherwise
      it starts, with its own entry and dispatch. */
  lemma AdmittedExactlyWithRoom(es: seq<Event>, rpc: RpcId, local: LocalId)
    requires local !in Exec(es).admitted
    ensures var s := Exec(es); var reply, t := AdmitReply(s, rpc), Step(s, Admit(rpc, local));
            && (reply.Duplicate? <==> exists l :: Running(s.dispatches, l) && s.dispatches[l].rpc == rpc)
            && (reply.Busy? <==>
                  && !reply.Duplicate?
                  && (|s.dispatches.Keys| == MAX_IN_FLIGHT || |Holders(s.active)| + |s.cancelTasks| == MAX_IN_FLIGHT))
            && (reply.Started? <==> local in t.admitted)
            && (reply.Started? ==>
                  && Running(t.dispatches, local) && t.dispatches[local].rpc == rpc
                  && rpc in t.active && t.active[rpc] == ActiveCall(local, false, true))
            && (!reply.Started? ==> t == s)
  {
    EveryRunKeepsInv(es);
    var s := Exec(es);
    if rpc in s.active { assert Running(s.dispatches, s.active[rpc].local); }
  }

  /** A cancel message for an id that is not in the table, or already canceled, does nothing. */
  lemma LateCancelIsIgnored(es: seq<Event>, rpc: RpcId)
    requires rpc in Exec(es).active ==> Exec(es).active[rpc].local in Exec(es).canceled
    ensures Step(Exec(es), Cancel(rpc)) == Exec(es)
  {
    EveryRunKeepsInv(es);
  }
}
