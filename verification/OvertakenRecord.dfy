/** What becomes of revocations after the history has moved past the newest control record without another
    (`commit_device_revocation_control` in crates/core/src/vault/revocation.rs, called from
    crates/contextd/src/pairing.rs). A device that is paired or recovered adds an event to the history and no control
    record; the commit of the next revocation compares the newest record with the end of the history. */
module OvertakenRecord {
  import opened Membership
  import opened MissedRecord
  import opened Options
  import opened Restart
  import opened Revocation
  import opened RevocationVault

  /** The history has left the state that the newest control record, of this epoch, led to. */
  predicate Overtaken(l: Ledger, newest: nat)
  {
    && l.history.Some? && newest in l.controls && (forall epoch | epoch in l.controls :: epoch <= newest)
    && Left(l.history.value, l.controls[newest].successorState)
  }

  /** No new record is then committed. */
  lemma NothingCommits(crypto: Crypto, l: Ledger, newest: nat, c: Control)
    requires NoReturn(crypto) && Overtaken(l, newest) && ReadHistory(crypto, l).Some?
    ensures CommitControl(crypto, l, c, l.history.value) == if Recorded(l, c) then Some(l) else None
  {
  }

  // ----- What any work does -----

  /** The history is kept or grown. */
  predicate Grown(l: Ledger, w: Ledger)
  {
    l.history.Some? ==> w.history.Some? && l.history.value.events <= w.history.value.events
  }

  lemma GrownLeft(l: Ledger, w: Ledger, state: Hash)
    requires Grown(l, w) && l.history.Some? && Left(l.history.value, state)
    ensures w.history.Some? && Left(w.history.value, state)
  {
    LongerLeft(l.history.value, w.history.value, w.history.value.events[|l.history.value.events|..], state);
  }

  lemma FinishOnlyActivates(crypto: Crypto, self: DeviceId, l: Ledger, d: Control, end: Endpoint, stop: nat)
    ensures SameRecords(Reached(Finish(crypto, self, l, d, end), stop), l)
  {
  }

  lemma ExtendOnlyGrows(crypto: Crypto, self: DeviceId, l: Ledger, d: Control, stop: nat)
    ensures var w := Reached(ExtendAndFinish(crypto, self, l, d, ExpectedReceipt(d)), stop);
            Grown(l, w) && w.controls == l.controls
  {
    var extended := AcceptExtension(crypto, l, d.parent, SuccessorOf(d), [EventOf(d)]);
    if extended.Some? && stop > 0 { FinishOnlyActivates(crypto, self, extended.value, d, SuccessorOf(d), stop - 1); }
  }

  /** An application, whole or cut off, grows the history and at most commits its own record at its parent. */
  lemma SettleGrows(crypto: Crypto, self: DeviceId, l: Ledger, d: Control, stop: nat)
    ensures var w := Reached(Settle(crypto, self, l, d, ExpectedReceipt(d)), stop);
            && Grown(l, w)
            && (w.controls == l.controls ||
                (ReadHistory(crypto, l).Some? && Unfinished(l, d) && CommitControl(crypto, l, d, l.history.value).Some?
                 && w.controls == CommitControl(crypto, l, d, l.history.value).value.controls))
  {
    if ReadHistory(crypto, l).Some? {
      if Unfinished(l, d) {
        var committed := CommitControl(crypto, l, d, l.history.value);
        if committed.Some? && stop > 0 { ExtendOnlyGrows(crypto, self, committed.value, d, stop - 1); }
      } else {
        FinishOnlyActivates(crypto, self, l, d, l.history.value.endpoint, stop);
      }
    }
  }

  lemma ReconcileGrows(crypto: Crypto, l: Ledger, remote: Endpoint, fetch: Fetch, stop: nat)
    ensures var w := Reached(Reconcile(crypto, l, remote, fetch), stop); Grown(l, w) && w.controls == l.controls
  {
  }

  // ----- The records are frozen for good -----

  lemma WorkKeepsOvertaken(crypto: Crypto, self: DeviceId, l: Ledger, work: Work, newest: nat)
    requires NoReturn(crypto) && Overtaken(l, newest) && Proper(work)
    ensures var w := Worked(crypto, self, l, work); Overtaken(w, newest) && w.controls == l.controls
  {
    match work {
      case Reconciling(remote, fetch, stop) => ReconcileGrows(crypto, l, remote, fetch, stop);
      case Applying(intents, intent, receipt, stop) =>
        var accept := AcceptReceipt(intents, intent.control.op, receipt);
        if accept.Some? && stop > 0 {
          ApplyIsSettling(crypto, self, VaultState(l, intents), intent, receipt, accept.value);
          SettleGrows(crypto, self, l, intent.control, stop - 1);
          if ReadHistory(crypto, l).Some? { NothingCommits(crypto, l, newest, intent.control); }
        }
    }
    GrownLeft(l, Worked(crypto, self, l, work), l.controls[newest].successorState);
  }

  /** Once the newest record is overtaken, no life of the ledger changes a control record. */
  lemma {:induction false} RecordsAreFrozen(crypto: Crypto, self: DeviceId, l: Ledger, works: seq<Work>, newest: nat)
    requires NoReturn(crypto) && Overtaken(l, newest)
    ensures var w := Life(crypto, self, l, works); Overtaken(w, newest) && w.controls == l.controls
  {
    if works != [] {
      var before := works[..|works| - 1];
      RecordsAreFrozen(crypto, self, l, before, newest);
      if Proper(works[|works| - 1]) {
        WorkKeepsOvertaken(crypto, self, Life(crypto, self, l, before), works[|works| - 1], newest);
      }
    }
  }

  /** And in every such life no further revocation that starts where the history stands is applied: the ledger stays as
      it is, without its record. */
  lemma NoFurtherRevocationApplies(crypto: Crypto, self: DeviceId, l: Ledger, works: seq<Work>, newest: nat,
                                   intents: Intents, intent: Intent, receipt: Receipt)
    requires NoReturn(crypto) && Overtaken(l, newest) && Proper(Applying(intents, intent, receipt, 0))
    requires Unfinished(Life(crypto, self, l, works), intent.control) && !Recorded(l, intent.control)
    ensures var w := Life(crypto, self, l, works);
            var run := Apply(crypto, self, VaultState(w, intents), intent, receipt);
            !run.ok && Final(run).ledger == w && !Recorded(w, intent.control)
  {
    var w, c := Life(crypto, self, l, works), intent.control;
    RecordsAreFrozen(crypto, self, l, works, newest);
    var accept := AcceptReceipt(intents, c.op, receipt);
    if accept.Some? {
      ApplyIsSettling(crypto, self, VaultState(w, intents), intent, receipt, accept.value);
      NothingSettlesThere(crypto, self, w, newest, c);
    }
  }

  lemma NothingSettlesThere(crypto: Crypto, self: DeviceId, l: Ledger, newest: nat, c: Control)
    requires NoReturn(crypto) && Overtaken(l, newest) && Unfinished(l, c) && !Recorded(l, c)
    ensures Settle(crypto, self, l, c, ExpectedReceipt(c)) == Stop(l, false)
  {
    if ReadHistory(crypto, l).Some? { NothingCommits(crypto, l, newest, c); }
  }

  /** Nor does a restart finish it, at any time. */
  lemma EveryRestartFails(crypto: Crypto, self: DeviceId, l: Ledger, works: seq<Work>, newest: nat, intents: Intents,
                          ids: seq<OpId>, k: nat)
    requires NoReturn(crypto) && Overtaken(l, newest) && Resumable(intents, ids, k)
    requires var w, c := Life(crypto, self, l, works), intents[ids[k]].intent.control;
             Unfinished(w, c) && !Recorded(l, c) && NoOtherUnfinished(VaultState(w, intents), ids, k, w)
    ensures var w := Life(crypto, self, l, works);
            var r := Restarted(crypto, self, VaultState(w, intents), ids);
            !r.ok && SameRecords(r.vault.ledger, w)
  {
    var w, stored := Life(crypto, self, l, works), intents[ids[k]];
    NoFurtherRevocationApplies(crypto, self, l, works, newest, intents, stored.intent, stored.disposition.receipt);
    RestartAppliesOnce(crypto, self, VaultState(w, intents), ids, k);
  }

  // ----- How it comes about -----

  /** It takes one reconciliation after a revocation was applied here: whatever event it brings, a pairing, a recovery
      or a revocation made elsewhere, overtakes the record. */
  lemma ReconcilingOvertakes(crypto: Crypto, l: Ledger, c: Control, remote: Endpoint, fetch: Fetch)
    requires l.history.Some? && l.history.value.endpoint == SuccessorOf(c) && Recorded(l, c)
    requires forall epoch | epoch in l.controls :: epoch <= EpochOf(c)
    requires remote != SuccessorOf(c) && Reconcile(crypto, l, remote, fetch).ok
    ensures Overtaken(Final(Reconcile(crypto, l, remote, fetch)), EpochOf(c))
  {
    var h, w := l.history.value, Final(Reconcile(crypto, l, remote, fetch));
    var chain := WalkBack(fetch, c.successorState, remote.state, 0, 0).events;
    FoundChainIsSound(fetch, c.successorState, remote.state, 0, 0);
    LinkedMeans(chain, c.successorState, remote.state);
    assert w.history.value.events == h.events + chain;
    assert w.history.value.events[|h.events|].parent == c.successorState;
  }
}
