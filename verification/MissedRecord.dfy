/** How a revocation can be applied without its control record, and what follows (`apply_revocation_receipt` and
    `reconcile_membership` in crates/contextd/src/pairing.rs). Only an application that finds the history at its parent
    commits the record; membership reconciliation moves the history without one. */
module MissedRecord {
  import opened Membership
  import opened Options
  import opened Restart
  import opened Revocation
  import opened RevocationVault

  // ----- How it comes about -----

  /** A server that has just this event, of so many bytes. */
  function Serving(event: Event, size: nat): Fetch
  {
    (k: nat, h: Hash) => if h == event.successor then Raw(size, Some(event)) else Missing
  }

  lemma ServedReconciliation(crypto: Crypto, l: Ledger, c: Control, fetch: Fetch)
    requires ReadHistory(crypto, l).Some? && l.history.value.endpoint == c.parent
    requires WalkBack(fetch, c.parent.state, c.successorState, 0, 0) == Found([EventOf(c)])
    requires crypto.genuine(History(l.history.value.events + [EventOf(c)], SuccessorOf(c)))
    requires crypto.size(EventOf(c)) <= MAX_BYTES
    ensures var w := Final(Reconcile(crypto, l, SuccessorOf(c), fetch));
            && w.history == Some(History(l.history.value.events + [EventOf(c)], SuccessorOf(c)))
            && w.controls == l.controls
  {
    BytesOfOne(crypto, EventOf(c));
  }

  /** The record is missed when membership is reconciled to the successor while the submission is unconfirmed: the
      application then succeeds without a control record. */
  lemma ReconciledHistoryMissesRecord(crypto: Crypto, self: DeviceId, v: VaultState, intent: Intent, size: nat)
    requires var c, l := intent.control, v.ledger;
             && c.op in v.intents && v.intents[c.op] == Coordination(intent, false, Unconfirmed)
             && ReadHistory(crypto, l).Some? && l.history.value.endpoint == c.parent && EpochOf(c) !in l.controls
             && c.parent.state != c.successorState && size <= MAX_BYTES && crypto.size(EventOf(c)) <= MAX_BYTES
             && var longer := History(l.history.value.events + [EventOf(c)], SuccessorOf(c));
                crypto.genuine(longer) && (c.target == self || crypto.openable(longer))
    ensures var c := intent.control;
            var reconciled := Final(Reconcile(crypto, v.ledger, SuccessorOf(c), Serving(EventOf(c), size)));
            && reconciled.history == Some(History(v.ledger.history.value.events + [EventOf(c)], SuccessorOf(c)))
            && var run := Apply(crypto, self, VaultState(reconciled, v.intents), intent, ExpectedReceipt(c));
               run.ok && EpochOf(c) !in Final(run).ledger.controls
  {
    var c := intent.control;
    var fetch := Serving(EventOf(c), size);
    assert WalkBack(fetch, c.parent.state, c.parent.state, 1, size) == Found([]);
    assert WalkBack(fetch, c.parent.state, c.successorState, 0, 0) == Found([EventOf(c)]);
    ServedReconciliation(crypto, v.ledger, c, fetch);
    var reconciled := Final(Reconcile(crypto, v.ledger, SuccessorOf(c), fetch));
    ApplyIsSettling(crypto, self, VaultState(reconciled, v.intents), intent, ExpectedReceipt(c),
                    Marked(v.intents, c.op, Accepted(ExpectedReceipt(c))));
  }

  // ----- Whole lives of a ledger -----

  /** A piece of work on the ledger, cut off after some durable state of its trail or run to its end: membership is
      reconciled with any server, or some receipt is applied with any intents. */
  datatype Work =
    | Reconciling(remote: Endpoint, fetch: Fetch, stop: nat)
    | Applying(intents: Intents, intent: Intent, receipt: Receipt, stop: nat)

  function Reached<S>(run: Run<S>, stop: nat): S
    requires run.trail != []
  {
    if stop < |run.trail| then run.trail[stop] else Final(run)
  }

  /** Receipts are applied for intents as they are stored. */
  predicate Proper(work: Work)
  {
    work.Applying? ==>
      && work.intent.control.op in work.intents
      && work.intents[work.intent.control.op].intent == work.intent
  }

  function Worked(crypto: Crypto, self: DeviceId, l: Ledger, work: Work): Ledger
  {
    match work
    case Reconciling(remote, fetch, stop) => Reached(Reconcile(crypto, l, remote, fetch), stop)
    case Applying(intents, intent, receipt, stop) =>
      Reached(Apply(crypto, self, VaultState(l, intents), intent, receipt), stop).ledger
  }

  function Life(crypto: Crypto, self: DeviceId, l: Ledger, works: seq<Work>): Ledger
  {
    if works == [] then l
    else
      var before := Life(crypto, self, l, works[..|works| - 1]);
      if Proper(works[|works| - 1]) then Worked(crypto, self, before, works[|works| - 1]) else before
  }

  /** A genuine history does not end in a state that one of its events has left: states are digests, and each commits to
      those before it. */
  ghost predicate NoReturn(crypto: Crypto)
  {
    forall h: History | crypto.genuine(h) :: !Left(h, h.endpoint.state)
  }

  predicate Left(h: History, state: Hash) { exists i | 0 <= i < |h.events| :: h.events[i].parent == state }

  /** The history went through the revocation and on, and its record is not stored. */
  predicate LeftBehind(l: Ledger, c: Control)
  {
    && l.history.Some? && !Recorded(l, c)
    && Left(l.history.value, c.parent.state) && Left(l.history.value, c.successorState)
  }

  // ----- It stays missed -----

  lemma LongerLeft(h: History, longer: History, added: seq<Event>, state: Hash)
    requires Left(h, state) && longer.events == h.events + added
    ensures Left(longer, state)
  {
    var i :| 0 <= i < |h.events| && h.events[i].parent == state;
    assert longer.events[i].parent == state;
  }

  lemma ExtensionKeepsLeftBehind(crypto: Crypto, l: Ledger, expected: Endpoint, successor: Endpoint, added: seq<Event>,
                                 c: Control)
    requires LeftBehind(l, c) && AcceptExtension(crypto, l, expected, successor, added).Some?
    ensures LeftBehind(AcceptExtension(crypto, l, expected, successor, added).value, c)
  {
    var w := AcceptExtension(crypto, l, expected, successor, added).value;
    if w != l {
      LongerLeft(l.history.value, w.history.value, added, c.parent.state);
      LongerLeft(l.history.value, w.history.value, added, c.successorState);
    }
  }

  lemma ReconcileKeepsLeftBehind(crypto: Crypto, l: Ledger, remote: Endpoint, fetch: Fetch, stop: nat, c: Control)
    requires LeftBehind(l, c)
    ensures LeftBehind(Reached(Reconcile(crypto, l, remote, fetch), stop), c)
  {
    if ReadHistory(crypto, l).Some? && l.history.value.endpoint != remote {
      var local := l.history.value.endpoint;
      var walked := WalkBack(fetch, local.state, remote.state, 0, 0);
      if walked.Found? && AcceptExtension(crypto, l, local, remote, walked.events).Some? {
        ExtensionKeepsLeftBehind(crypto, l, local, remote, walked.events, c);
      }
    }
  }

  lemma FinishKeepsLeftBehind(crypto: Crypto, self: DeviceId, l: Ledger, d: Control, end: Endpoint, stop: nat,
                              c: Control)
    requires LeftBehind(l, c)
    ensures LeftBehind(Reached(Finish(crypto, self, l, d, end), stop), c)
  {
  }

  lemma ExtendKeepsLeftBehind(crypto: Crypto, self: DeviceId, l: Ledger, d: Control, stop: nat, c: Control)
    requires LeftBehind(l, c)
    ensures LeftBehind(Reached(ExtendAndFinish(crypto, self, l, d, ExpectedReceipt(d)), stop), c)
  {
    var extended := AcceptExtension(crypto, l, d.parent, SuccessorOf(d), [EventOf(d)]);
    if extended.Some? && stop > 0 {
      ExtensionKeepsLeftBehind(crypto, l, d.parent, SuccessorOf(d), [EventOf(d)], c);
      FinishKeepsLeftBehind(crypto, self, extended.value, d, SuccessorOf(d), stop - 1, c);
    }
  }

  /** Another revocation's application leaves it behind, and its own changes nothing. */
  lemma SettleKeepsLeftBehind(crypto: Crypto, self: DeviceId, l: Ledger, d: Control, stop: nat, c: Control)
    requires NoReturn(crypto) && LeftBehind(l, c)
    ensures LeftBehind(Reached(Settle(crypto, self, l, d, ExpectedReceipt(d)), stop), c)
  {
    if ReadHistory(crypto, l).Some? {
      var h := l.history.value;
      if h.endpoint == d.parent {
        assert d != c;
        var committed := CommitControl(crypto, l, d, h);
        if committed.Some? && stop > 0 {
          ExtendKeepsLeftBehind(crypto, self, committed.value, d, stop - 1, c);
        }
      } else {
        FinishKeepsLeftBehind(crypto, self, l, d, h.endpoint, stop, c);
      }
    }
  }

  lemma WorkKeepsLeftBehind(crypto: Crypto, self: DeviceId, l: Ledger, work: Work, c: Control)
    requires NoReturn(crypto) && LeftBehind(l, c) && Proper(work)
    ensures LeftBehind(Worked(crypto, self, l, work), c)
  {
    match work
    case Reconciling(remote, fetch, stop) => ReconcileKeepsLeftBehind(crypto, l, remote, fetch, stop, c);
    case Applying(intents, intent, receipt, stop) =>
      var accept := AcceptReceipt(intents, intent.control.op, receipt);
      if accept.Some? && stop > 0 {
        ApplyIsSettling(crypto, self, VaultState(l, intents), intent, receipt, accept.value);
        SettleKeepsLeftBehind(crypto, self, l, intent.control, stop - 1, c);
      }
  }

  lemma {:induction false} LifeKeepsLeftBehind(crypto: Crypto, self: DeviceId, l: Ledger, works: seq<Work>, c: Control)
    requires NoReturn(crypto) && LeftBehind(l, c)
    ensures LeftBehind(Life(crypto, self, l, works), c)
  {
    if works != [] {
      LifeKeepsLeftBehind(crypto, self, l, works[..|works| - 1], c);
      if Proper(works[|works| - 1]) {
        WorkKeepsLeftBehind(crypto, self, Life(crypto, self, l, works[..|works| - 1]), works[|works| - 1], c);
      }
    }
  }

  /** Once the history has gone through a revocation and on without its record, then in every later life of the ledger,
      with reconciliations and other revocations applied or cut off in any order, no application of that revocation
      succeeds or changes the ledger, and its record is never stored. */
  lemma MissedRecordIsNeverAccepted(crypto: Crypto, self: DeviceId, l: Ledger, works: seq<Work>, intents: Intents,
                                    intent: Intent, receipt: Receipt)
    requires NoReturn(crypto) && LeftBehind(l, intent.control)
    requires Proper(Applying(intents, intent, receipt, 0))
    ensures var w := Life(crypto, self, l, works);
            var run := Apply(crypto, self, VaultState(w, intents), intent, receipt);
            !run.ok && Final(run).ledger == w && !Recorded(w, intent.control)
  {
    LifeKeepsLeftBehind(crypto, self, l, works, intent.control);
    var w := Life(crypto, self, l, works);
    var accept := AcceptReceipt(intents, intent.control.op, receipt);
    if accept.Some? {
      ApplyIsSettling(crypto, self, VaultState(w, intents), intent, receipt, accept.value);
      NothingSettles(crypto, self, w, intent.control);
    }
  }

  lemma NothingSettles(crypto: Crypto, self: DeviceId, l: Ledger, c: Control)
    requires NoReturn(crypto) && LeftBehind(l, c)
    ensures Settle(crypto, self, l, c, ExpectedReceipt(c)) == Stop(l, false)
  {
  }

  /** A reconciliation that moves past the successor is what leaves the revocation behind. */
  lemma MovingOnLeavesBehind(crypto: Crypto, l: Ledger, c: Control, remote: Endpoint, fetch: Fetch)
    requires l.history.Some? && l.history.value.endpoint == SuccessorOf(c) && EventOf(c) in l.history.value.events
    requires !Recorded(l, c) && remote != SuccessorOf(c) && Reconcile(crypto, l, remote, fetch).ok
    ensures LeftBehind(Final(Reconcile(crypto, l, remote, fetch)), c)
  {
    var h := l.history.value;
    var w := Final(Reconcile(crypto, l, remote, fetch));
    var chain := WalkBack(fetch, c.successorState, remote.state, 0, 0).events;
    FoundChainIsSound(fetch, c.successorState, remote.state, 0, 0);
    LinkedMeans(chain, c.successorState, remote.state);
    assert w.history.value.events == h.events + chain;
    assert Left(h, c.parent.state);
    LongerLeft(h, w.history.value, chain, c.parent.state);
    assert w.history.value.events[|h.events|].parent == c.successorState;
  }

  // ----- A crash, then reconciliation -----

  /** The history is the same, or longer and past where it stood; the records are the same. */
  predicate Onward(l: Ledger, w: Ledger)
  {
    && l.controls == w.controls
    && (l.history == w.history ||
        (l.history.Some? && w.history.Some? && l.history.value.events <= w.history.value.events &&
         Left(w.history.value, l.history.value.endpoint.state)))
  }

  lemma OnwardKeepsLeft(l: Ledger, w: Ledger, state: Hash)
    requires Onward(l, w)
    ensures l.history.Some? && Left(l.history.value, state) ==> w.history.Some? && Left(w.history.value, state)
  {
    if l.history.Some? && l.history != w.history && Left(l.history.value, state) {
      LongerLeft(l.history.value, w.history.value, w.history.value.events[|l.history.value.events|..], state);
    }
  }

  predicate OnlyReconciling(works: seq<Work>) { forall i | 0 <= i < |works| :: works[i].Reconciling? }

  lemma ReconcileGoesOnward(crypto: Crypto, l: Ledger, m: Ledger, remote: Endpoint, fetch: Fetch, stop: nat)
    requires Onward(l, m)
    ensures Onward(l, Reached(Reconcile(crypto, m, remote, fetch), stop))
  {
    if ReadHistory(crypto, m).Some? && m.history.value.endpoint != remote {
      var h := m.history.value;
      var walked := WalkBack(fetch, h.endpoint.state, remote.state, 0, 0);
      if walked.Found? && AcceptExtension(crypto, m, h.endpoint, remote, walked.events).Some? {
        var longer := AcceptExtension(crypto, m, h.endpoint, remote, walked.events).value.history.value;
        assert longer.events[|h.events|].parent == h.endpoint.state;
        if l.history != m.history { LongerLeft(h, longer, walked.events, l.history.value.endpoint.state); }
      }
    }
  }

  lemma {:induction false} LifeGoesOnward(crypto: Crypto, self: DeviceId, l: Ledger, works: seq<Work>)
    requires OnlyReconciling(works)
    ensures Onward(l, Life(crypto, self, l, works))
  {
    if works != [] {
      var n := |works| - 1;
      LifeGoesOnward(crypto, self, l, works[..n]);
      var work := works[n];
      ReconcileGoesOnward(crypto, l, Life(crypto, self, l, works[..n]), work.remote, work.fetch, work.stop);
    }
  }

  /** An application that would have succeeded is cut off anywhere, membership is then reconciled any number of times,
      and the receipt is applied again: it succeeds with its record stored exactly when the history still stands at the
      parent, or the record was committed before the crash and the history went through the revocation. */
  lemma CrashThenReconciliation(crypto: Crypto, self: DeviceId, l: Ledger, c: Control, i: nat, works: seq<Work>)
    requires NoReturn(crypto) && OnlyReconciling(works) && Unfinished(l, c)
    requires var run := Settle(crypto, self, l, c, ExpectedReceipt(c)); run.ok && i < |run.trail|
    requires var e := Life(crypto, self, Settle(crypto, self, l, c, ExpectedReceipt(c)).trail[i], works);
             ReadHistory(crypto, e).Some? && (c.target == self || crypto.openable(e.history.value))
    ensures var crashed := Settle(crypto, self, l, c, ExpectedReceipt(c)).trail[i];
            var e := Life(crypto, self, crashed, works); var again := Settle(crypto, self, e, c, ExpectedReceipt(c));
            var h := e.history.value;
            again.ok && Recorded(Final(again), c) <==>
            Unfinished(e, c) || (Recorded(crashed, c) && (h.endpoint == SuccessorOf(c) || EventOf(c) in h.events))
  {
    var crashed := Settle(crypto, self, l, c, ExpectedReceipt(c)).trail[i];
    var e := Life(crypto, self, crashed, works);
    LifeGoesOnward(crypto, self, crashed, works);
    if Unfinished(e, c) {
      StillAtTheParent(crypto, self, l, c, i, e);
      SettleAchieves(crypto, self, e, c);
    } else {
      SettledExactly(crypto, self, e, c);
    }
  }

  lemma StillAtTheParent(crypto: Crypto, self: DeviceId, l: Ledger, c: Control, i: nat, e: Ledger)
    requires NoReturn(crypto) && Unfinished(l, c) && Unfinished(e, c) && ReadHistory(crypto, e).Some?
    requires var run := Settle(crypto, self, l, c, ExpectedReceipt(c));
             run.ok && i < |run.trail| && Onward(run.trail[i], e)
    ensures Settle(crypto, self, e, c, ExpectedReceipt(c)).ok
  {
    var crashed := Settle(crypto, self, l, c, ExpectedReceipt(c)).trail[i];
    CrashedAtParentOrAfter(crypto, self, l, c, i);
    OnwardKeepsLeft(crashed, e, c.parent.state);
    assert crashed.history == e.history;
    SettleResumes(crypto, self, l, c, i);
    SettleIgnoresActivation(crypto, self, crashed, e, c);
  }

  /** A cut-off application leaves the history at the parent or having left it. */
  lemma CrashedAtParentOrAfter(crypto: Crypto, self: DeviceId, l: Ledger, c: Control, i: nat)
    requires Unfinished(l, c) && i < |Settle(crypto, self, l, c, ExpectedReceipt(c)).trail|
    ensures var w := Settle(crypto, self, l, c, ExpectedReceipt(c)).trail[i];
            w.history == l.history || (w.history.Some? && Left(w.history.value, c.parent.state))
  {
    var w := Settle(crypto, self, l, c, ExpectedReceipt(c)).trail[i];
    if w.history != l.history {
      assert w.history.value.events[|l.history.value.events|] == EventOf(c);
    }
  }
}
