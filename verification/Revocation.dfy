/** Applying an accepted revocation (crates/contextd/src/pairing.rs): a receipt is recorded, its control record
    committed, the history extended and the current keys activated, each in its own transaction, with a crash
    possible between any two. */
module Revocation {
  import opened Membership
  import opened Options
  import opened RevocationVault

  /** One piece of work: the durable states it passes through, first to last, and how it ended. */
  datatype Run<S> = Run(trail: seq<S>, ok: bool)

  function Then<S>(s: S, rest: Run<S>): Run<S> { Run([s] + rest.trail, rest.ok) }

  function Stop<S>(s: S, ok: bool): Run<S> { Run([s], ok) }

  function Final<S>(run: Run<S>): S
    requires run.trail != []
  {
    run.trail[|run.trail| - 1]
  }

  predicate Recorded(l: Ledger, c: Control)
  {
    EpochOf(c) in l.controls && l.controls[EpochOf(c)] == c
  }

  function Finish(crypto: Crypto, self: DeviceId, l: Ledger, c: Control, end: Endpoint): (run: Run<Ledger>)
    ensures run.trail != [] && run.trail[0] == l
  {
    if c.target == self then Stop(l, true)
    else
      var active := Activate(crypto, l, end);
      if active.None? then Stop(l, false) else Then(l, Stop(active.value, true))
  }

  function ExtendAndFinish(crypto: Crypto, self: DeviceId, l: Ledger, c: Control, receipt: Receipt): (run: Run<Ledger>)
    ensures run.trail != [] && run.trail[0] == l
  {
    var extended := AcceptExtension(crypto, l, receipt.parent, receipt.successor, [EventOf(c)]);
    if extended.None? then Stop(l, false)
    else Then(l, Finish(crypto, self, extended.value, c, receipt.successor))
  }

  /** What follows the recorded receipt. */
  function Settle(crypto: Crypto, self: DeviceId, l: Ledger, c: Control, receipt: Receipt): (run: Run<Ledger>)
    ensures run.trail != [] && run.trail[0] == l
  {
    var read := ReadHistory(crypto, l);
    if read.None? then Stop(l, false)
    else
      var h := read.value;
      if h.endpoint == receipt.parent then
        var committed := CommitControl(crypto, l, c, h);
        if committed.None? then Stop(l, false)
        else Then(l, ExtendAndFinish(crypto, self, committed.value, c, receipt))
      else if h.endpoint != receipt.successor && !(EventOf(c) in h.events && Recorded(l, c)) then Stop(l, false)
      else Finish(crypto, self, l, c, h.endpoint)
  }

  /** The durable states of an application: the old vault, then the accepted receipt with each ledger in turn. */
  function Lifted(v: VaultState, accepted: Intents, settled: Run<Ledger>): (run: Run<VaultState>)
    requires settled.trail != []
    ensures run.ok == settled.ok && |run.trail| == 1 + |settled.trail| && run.trail[0] == v
    ensures forall i | 0 <= i < |settled.trail| :: run.trail[i + 1] == VaultState(settled.trail[i], accepted)
    ensures Final(run) == VaultState(Final(settled), accepted)
  {
    Run([v] + seq(|settled.trail|, i requires 0 <= i < |settled.trail| => VaultState(settled.trail[i], accepted)),
        settled.ok)
  }

  function Apply(crypto: Crypto, self: DeviceId, v: VaultState, intent: Intent, receipt: Receipt)
    : (run: Run<VaultState>)
    ensures run.trail != [] && run.trail[0] == v
  {
    var accepted := AcceptReceipt(v.intents, intent.control.op, receipt);
    if accepted.None? then Stop(v, false)
    else Lifted(v, accepted.value, Settle(crypto, self, v.ledger, intent.control, receipt))
  }

  /** `apply_revocation_receipt`. */
  method ApplyRevocationReceipt(vault: Vault, self: DeviceId, intent: Intent, receipt: Receipt) returns (ok: bool)
    modifies vault
    ensures ok == Apply(vault.crypto, self, old(vault.State()), intent, receipt).ok
    ensures vault.State() == Final(Apply(vault.crypto, self, old(vault.State()), intent, receipt))
  {
    var record := intent.control;
    ok := vault.Accept(record.op, receipt);
    if ok {
      ok := SettleReceipt(vault, self, record, receipt);
    }
  }

  method SettleReceipt(vault: Vault, self: DeviceId, record: Control, receipt: Receipt) returns (ok: bool)
    modifies vault
    ensures ok == Settle(vault.crypto, self, old(vault.Records()), record, receipt).ok
    ensures vault.Records() == Final(Settle(vault.crypto, self, old(vault.Records()), record, receipt))
    ensures vault.intents == old(vault.intents)
  {
    if vault.history.None? || !vault.crypto.genuine(vault.history.value) {
      return false;
    }
    var history := vault.history.value;
    var end := history.endpoint;
    if history.endpoint == receipt.parent {
      ok := vault.Commit(record, history);
      if !ok {
        return;
      }
      ok := vault.Extend(receipt.parent, receipt.successor, [EventOf(record)]);
      if !ok {
        return;
      }
      end := receipt.successor;
    } else if history.endpoint != receipt.successor {
      if !(EventOf(record) in history.events
           && EpochOf(record) in vault.controls && vault.controls[EpochOf(record)] == record) {
        return false;
      }
    }
    if record.target == self {
      return true;
    }
    ok := vault.ActivateCurrent(end);
  }

  // ----- Crashes -----

  /** Both runs end in the same state and report the same. */
  predicate SameEnd<S(==)>(a: Run<S>, b: Run<S>)
    requires a.trail != [] && b.trail != []
  {
    Final(a) == Final(b) && a.ok == b.ok
  }

  lemma FinishResumes(crypto: Crypto, self: DeviceId, l: Ledger, c: Control, end: Endpoint, i: nat)
    requires i < |Finish(crypto, self, l, c, end).trail|
    ensures var w := Finish(crypto, self, l, c, end).trail[i];
            && w.history == l.history && w.controls == l.controls
            && SameEnd(Finish(crypto, self, w, c, end), Finish(crypto, self, l, c, end))
  {
  }

  /** Once the history ends at the successor, settling again only repeats the activation. */
  lemma ExtendedResumes(crypto: Crypto, self: DeviceId, l: Ledger, c: Control, i: nat)
    requires ReadHistory(crypto, l).Some? && l.history.value.endpoint == SuccessorOf(c)
    requires i < |Finish(crypto, self, l, c, SuccessorOf(c)).trail|
    ensures var w := Finish(crypto, self, l, c, SuccessorOf(c)).trail[i];
            SameEnd(Settle(crypto, self, w, c, ExpectedReceipt(c)), Finish(crypto, self, l, c, SuccessorOf(c)))
  {
    FinishResumes(crypto, self, l, c, SuccessorOf(c), i);
  }

  lemma SettleResumes(crypto: Crypto, self: DeviceId, l: Ledger, c: Control, i: nat)
    requires i < |Settle(crypto, self, l, c, ExpectedReceipt(c)).trail|
    ensures var w := Settle(crypto, self, l, c, ExpectedReceipt(c)).trail[i];
            SameEnd(Settle(crypto, self, w, c, ExpectedReceipt(c)), Settle(crypto, self, l, c, ExpectedReceipt(c)))
  {
    var receipt := ExpectedReceipt(c);
    var read := ReadHistory(crypto, l);
    if i > 0 && read.Some? {
      if read.value.endpoint == receipt.parent {
        var committed := CommitControl(crypto, l, c, read.value).value;
        if i > 1 {
          var extended := AcceptExtension(crypto, committed, receipt.parent, receipt.successor, [EventOf(c)]).value;
          ExtendedResumes(crypto, self, extended, c, i - 2);
        }
      } else {
        FinishResumes(crypto, self, l, c, read.value.endpoint, i);
      }
    }
  }

  /** The vault knows `op` only as this intent. */
  predicate Knows(v: VaultState, intent: Intent)
  {
    intent.control.op in v.intents ==> v.intents[intent.control.op].intent == intent
  }

  lemma AcceptingAgain(intents: Intents, op: OpId, receipt: Receipt)
    requires AcceptReceipt(intents, op, receipt).Some?
    ensures var accepted := AcceptReceipt(intents, op, receipt).value;
            && AcceptReceipt(accepted, op, receipt) == Some(accepted)
            && accepted[op].intent == intents[op].intent
  {
  }

  lemma LiftedSameEnd(v: VaultState, w: VaultState, accepted: Intents, a: Run<Ledger>, b: Run<Ledger>)
    requires a.trail != [] && b.trail != [] && SameEnd(a, b)
    ensures SameEnd(Lifted(v, accepted, a), Lifted(w, accepted, b))
  {
  }

  /** An application whose receipt is recorded, or can be, is the settling of its ledger. */
  lemma ApplyIsSettling(crypto: Crypto, self: DeviceId, v: VaultState, intent: Intent, receipt: Receipt,
                        accepted: Intents)
    requires AcceptReceipt(v.intents, intent.control.op, receipt) == Some(accepted) && Knows(v, intent)
    ensures receipt == ExpectedReceipt(intent.control)
    ensures Apply(crypto, self, v, intent, receipt)
         == Lifted(v, accepted, Settle(crypto, self, v.ledger, intent.control, receipt))
  {
  }

  /** Under every crash point: starting over from any durable state of an application ends exactly as that
      application would have, in success and in failure. */
  lemma CrashedApplicationResumes(crypto: Crypto, self: DeviceId, v: VaultState, intent: Intent, receipt: Receipt,
                                  i: nat)
    requires Knows(v, intent) && i < |Apply(crypto, self, v, intent, receipt).trail|
    ensures var w := Apply(crypto, self, v, intent, receipt).trail[i];
            && Knows(w, intent)
            && SameEnd(Apply(crypto, self, w, intent, receipt), Apply(crypto, self, v, intent, receipt))
  {
    var c, accept := intent.control, AcceptReceipt(v.intents, intent.control.op, receipt);
    if i > 0 && accept.Some? {
      AcceptingAgain(v.intents, c.op, receipt);
      ApplyIsSettling(crypto, self, v, intent, receipt, accept.value);
      SettleResumes(crypto, self, v.ledger, c, i - 1);
      var l := Settle(crypto, self, v.ledger, c, receipt).trail[i - 1];
      var w := VaultState(l, accept.value);
      ApplyIsSettling(crypto, self, w, intent, receipt, accept.value);
      LiftedSameEnd(w, v, accept.value,
                    Settle(crypto, self, l, c, receipt), Settle(crypto, self, v.ledger, c, receipt));
    }
  }

  /** The vault after a series of applications each cut off at the given point. */
  function Interrupted(crypto: Crypto, self: DeviceId, v: VaultState, intent: Intent, receipt: Receipt, stops: seq<nat>)
    : VaultState
    decreases |stops|
  {
    if stops == [] then v
    else
      var trail := Apply(crypto, self, v, intent, receipt).trail;
      var at := if stops[0] < |trail| then stops[0] else |trail| - 1;
      Interrupted(crypto, self, trail[at], intent, receipt, stops[1..])
  }

  /** Any number of crashes and restarts changes nothing about the end. */
  lemma {:induction false} ManyCrashesResume(crypto: Crypto, self: DeviceId, v: VaultState, intent: Intent,
                                             receipt: Receipt,
                                             stops: seq<nat>)
    requires Knows(v, intent)
    ensures var w := Interrupted(crypto, self, v, intent, receipt, stops);
            SameEnd(Apply(crypto, self, w, intent, receipt), Apply(crypto, self, v, intent, receipt))
    decreases |stops|
  {
    if stops != [] {
      var trail := Apply(crypto, self, v, intent, receipt).trail;
      var at := if stops[0] < |trail| then stops[0] else |trail| - 1;
      CrashedApplicationResumes(crypto, self, v, intent, receipt, at);
      ManyCrashesResume(crypto, self, trail[at], intent, receipt, stops[1..]);
    }
  }

  // ----- What an application achieves -----

  lemma SettleAchieves(crypto: Crypto, self: DeviceId, l: Ledger, c: Control)
    requires Settle(crypto, self, l, c, ExpectedReceipt(c)).ok
    ensures var w := Final(Settle(crypto, self, l, c, ExpectedReceipt(c)));
            && l.history.Some? && w.history.Some?
            && w.history.value == (if l.history.value.endpoint == c.parent
                                   then History(l.history.value.events + [EventOf(c)], SuccessorOf(c))
                                   else l.history.value)
            && (Recorded(w, c) <==> l.history.value.endpoint == c.parent || Recorded(l, c))
            && (c.target != self ==> w.activation == Some(w.history.value.endpoint))
  {
  }

  // ----- When an application succeeds -----

  /** The history stands where this revocation starts: applying its receipt will advance it. */
  predicate Unfinished(l: Ledger, c: Control) { l.history.Some? && l.history.value.endpoint == c.parent }

  /** The history is at the successor, or past it with the event and the record in place, and what is to be activated
      can be. */
  predicate Settled(crypto: Crypto, self: DeviceId, l: Ledger, c: Control)
  {
    && ReadHistory(crypto, l).Some? && !Unfinished(l, c)
    && var h := l.history.value;
       && (h.endpoint == SuccessorOf(c) || (EventOf(c) in h.events && Recorded(l, c)))
       && (c.target == self || crypto.openable(h))
  }

  /** The control record is stored already, or its epoch is free, it is lawful, and the newest record stored is the one
      the history ends in. */
  predicate Committable(crypto: Crypto, l: Ledger, c: Control)
    requires l.history.Some?
  {
    if EpochOf(c) in l.controls then l.controls[EpochOf(c)] == c
    else crypto.lawful(c, l.history.value) && ControlsEndAt(l.controls, l.history.value.endpoint)
  }

  /** The history stands at the parent, the record can be committed, and the longer history is genuine, within the
      budget and can be activated if that is to be done. */
  predicate Ripe(crypto: Crypto, self: DeviceId, l: Ledger, c: Control)
  {
    && ReadHistory(crypto, l).Some? && Unfinished(l, c) && Committable(crypto, l, c)
    && var longer := History(l.history.value.events + [EventOf(c)], SuccessorOf(c));
       && crypto.size(EventOf(c)) <= MAX_BYTES && crypto.genuine(longer)
       && (c.target == self || crypto.openable(longer))
  }

  /** At the parent, a receipt applies exactly when it is ripe, and leaves its record exactly when that can be
      committed. */
  lemma SettlesAtParent(crypto: Crypto, self: DeviceId, l: Ledger, c: Control)
    requires ReadHistory(crypto, l).Some? && Unfinished(l, c)
    ensures var run := Settle(crypto, self, l, c, ExpectedReceipt(c));
            && (run.ok <==> Ripe(crypto, self, l, c))
            && (Recorded(Final(run), c) <==> Committable(crypto, l, c))
            && (!Committable(crypto, l, c) ==> run == Stop(l, false))
  {
    BytesOfOne(crypto, EventOf(c));
  }

  /** In every ledger, a receipt applies exactly when it is ripe or settled, and its record is stored afterwards exactly
      when it was before, or the history stood at the parent and the record could be committed. */
  lemma SettlesExactly(crypto: Crypto, self: DeviceId, l: Ledger, c: Control)
    ensures var run := Settle(crypto, self, l, c, ExpectedReceipt(c));
            && (run.ok <==> Ripe(crypto, self, l, c) || Settled(crypto, self, l, c))
            && (Recorded(Final(run), c) <==>
                  || Recorded(l, c)
                  || (ReadHistory(crypto, l).Some? && Unfinished(l, c) && Committable(crypto, l, c)))
  {
    if ReadHistory(crypto, l).Some? && Unfinished(l, c) { SettlesAtParent(crypto, self, l, c); }
  }

  /** The history is verified, stands at the parent, and the record can be committed. */
  predicate Commits(crypto: Crypto, l: Ledger, c: Control)
  {
    ReadHistory(crypto, l).Some? && Unfinished(l, c) && Committable(crypto, l, c)
  }

  /** And the event can be added. */
  predicate Advances(crypto: Crypto, l: Ledger, c: Control)
  {
    && Commits(crypto, l, c) && crypto.size(EventOf(c)) <= MAX_BYTES
    && crypto.genuine(History(l.history.value.events + [EventOf(c)], SuccessorOf(c)))
  }

  /** Where settling ends, in success and in failure: each of the three parts is changed exactly when it can be. */
  function Outcome(crypto: Crypto, self: DeviceId, l: Ledger, c: Control): Ledger
  {
    var history := if Advances(crypto, l, c)
                   then Some(History(l.history.value.events + [EventOf(c)], SuccessorOf(c))) else l.history;
    Ledger(history,
           if Commits(crypto, l, c) then l.controls[EpochOf(c) := c] else l.controls,
           if c.target != self && (Ripe(crypto, self, l, c) || Settled(crypto, self, l, c))
           then Some(history.value.endpoint) else l.activation)
  }

  lemma SettleEnds(crypto: Crypto, self: DeviceId, l: Ledger, c: Control)
    ensures Final(Settle(crypto, self, l, c, ExpectedReceipt(c))) == Outcome(crypto, self, l, c)
  {
    BytesOfOne(crypto, EventOf(c));
    if Commits(crypto, l, c) && EpochOf(c) in l.controls { assert l.controls == l.controls[EpochOf(c) := c]; }
  }

  predicate InOrder(l: Ledger, w: Ledger, end: Ledger, c: Control)
  {
    && (w.history != l.history ==> Recorded(w, c) && w.history == end.history)
    && (w.activation != l.activation ==> w == end)
    && (w.controls == l.controls || w.controls == end.controls)
  }

  lemma TrailInOrderToItsEnd(crypto: Crypto, self: DeviceId, l: Ledger, c: Control, i: nat)
    requires i < |Settle(crypto, self, l, c, ExpectedReceipt(c)).trail|
    ensures var run := Settle(crypto, self, l, c, ExpectedReceipt(c)); InOrder(l, run.trail[i], Final(run), c)
  {
  }

  /** The durable states come in order: nothing but the record is added before the record is stored, and nothing is
      activated before the history is where it will end. */
  lemma SettleTrailInOrder(crypto: Crypto, self: DeviceId, l: Ledger, c: Control, i: nat)
    requires i < |Settle(crypto, self, l, c, ExpectedReceipt(c)).trail|
    ensures var w := Settle(crypto, self, l, c, ExpectedReceipt(c)).trail[i];
            InOrder(l, w, Outcome(crypto, self, l, c), c)
  {
    SettleEnds(crypto, self, l, c);
    TrailInOrderToItsEnd(crypto, self, l, c, i);
  }

  /** The receipt is the one expected, and it is or can be recorded. */
  predicate Acceptable(intents: Intents, op: OpId, receipt: Receipt) { AcceptReceipt(intents, op, receipt).Some? }

  /** In every vault, an application succeeds exactly when the receipt can be recorded and is ripe or settled. It leaves
      its control record exactly when that was there, or the receipt can be recorded, the history stands at the parent
      and the record can be committed. A successful one advances the history from the parent to the successor or leaves
      it alone, and activates its end unless this device is the one revoked. */
  lemma ApplicationAchieves(crypto: Crypto, self: DeviceId, v: VaultState, intent: Intent, receipt: Receipt)
    requires Knows(v, intent)
    ensures var run, c, l := Apply(crypto, self, v, intent, receipt), intent.control, v.ledger;
            var w, acceptable := Final(run), Acceptable(v.intents, intent.control.op, receipt);
            && (run.ok <==> acceptable && (Ripe(crypto, self, l, c) || Settled(crypto, self, l, c)))
            && (Recorded(w.ledger, c) <==>
                  || Recorded(l, c)
                  || (acceptable && ReadHistory(crypto, l).Some? && Unfinished(l, c) && Committable(crypto, l, c)))
            && (acceptable ==> receipt == ExpectedReceipt(c))
            && (acceptable ==> w == VaultState(Outcome(crypto, self, l, c), Marked(v.intents, c.op, Accepted(receipt))))
            && (!acceptable ==> w == v)
            && (run.ok ==>
                  && w.ledger.history == (if Unfinished(l, c)
                                          then Some(History(l.history.value.events + [EventOf(c)], SuccessorOf(c)))
                                          else l.history)
                  && (c.target != self ==> w.ledger.activation == Some(w.ledger.history.value.endpoint)))
  {
    var accept := AcceptReceipt(v.intents, intent.control.op, receipt);
    if accept.Some? {
      ApplyIsSettling(crypto, self, v, intent, receipt, accept.value);
      SettlesExactly(crypto, self, v.ledger, intent.control);
      SettleEnds(crypto, self, v.ledger, intent.control);
      assert accept.value == Marked(v.intents, intent.control.op, Accepted(receipt));
      if Settle(crypto, self, v.ledger, intent.control, receipt).ok {
        SettleAchieves(crypto, self, v.ledger, intent.control);
      }
    }
  }

  lemma ApplyTrail(crypto: Crypto, self: DeviceId, v: VaultState, intent: Intent, receipt: Receipt, i: nat)
    requires Knows(v, intent) && 0 < i < |Apply(crypto, self, v, intent, receipt).trail|
    ensures receipt == ExpectedReceipt(intent.control) && intent.control.op in v.intents
    ensures var settled := Settle(crypto, self, v.ledger, intent.control, receipt);
            && i - 1 < |settled.trail| && settled.trail[0] == v.ledger
            && Apply(crypto, self, v, intent, receipt).trail[i] ==
               VaultState(settled.trail[i - 1], Marked(v.intents, intent.control.op, Accepted(receipt)))
  {
    var accept := AcceptReceipt(v.intents, intent.control.op, receipt);
    ApplyIsSettling(crypto, self, v, intent, receipt, accept.value);
    assert accept.value == Marked(v.intents, intent.control.op, Accepted(receipt));
  }

  /** The receipt is durable before anything else, and then the ledger's states come in their order. */
  lemma TrailInOrder(crypto: Crypto, self: DeviceId, v: VaultState, intent: Intent, receipt: Receipt, i: nat)
    requires Knows(v, intent) && 0 < i < |Apply(crypto, self, v, intent, receipt).trail|
    ensures var w, l, c := Apply(crypto, self, v, intent, receipt).trail[i], v.ledger, intent.control;
            && c.op in w.intents && w.intents[c.op].disposition == Accepted(receipt)
            && (w.ledger.history != l.history ==> Recorded(w.ledger, c))
            && (w.ledger.activation != l.activation ==> w.ledger == Outcome(crypto, self, l, c))
            && (i == 1 ==> w.ledger == l)
  {
    ApplyTrail(crypto, self, v, intent, receipt, i);
    SettleTrailInOrder(crypto, self, v.ledger, intent.control, i - 1);
  }

  // ----- One revocation after another -----

  function Next(h: History, c: Control): History { History(h.events + [EventOf(c)], SuccessorOf(c)) }

  /** Each revocation starts where the one before it ended, and its signatures and keys are in order. */
  predicate InSuccession(crypto: Crypto, self: DeviceId, h: History, cs: seq<Control>)
    decreases |cs|
  {
    cs == [] ||
    (&& cs[0].parent == h.endpoint && crypto.lawful(cs[0], h) && crypto.size(EventOf(cs[0])) <= MAX_BYTES
     && crypto.genuine(Next(h, cs[0])) && (cs[0].target == self || crypto.openable(Next(h, cs[0])))
     && InSuccession(crypto, self, Next(h, cs[0]), cs[1..]))
  }

  /** Every one of them applies in its turn. */
  predicate AllApply(crypto: Crypto, self: DeviceId, l: Ledger, cs: seq<Control>)
    decreases |cs|
  {
    cs == [] ||
    (var run := Settle(crypto, self, l, cs[0], ExpectedReceipt(cs[0]));
     run.ok && AllApply(crypto, self, Final(run), cs[1..]))
  }

  function AfterAll(crypto: Crypto, self: DeviceId, l: Ledger, cs: seq<Control>): Ledger
    decreases |cs|
  {
    if cs == [] then l
    else AfterAll(crypto, self, Final(Settle(crypto, self, l, cs[0], ExpectedReceipt(cs[0]))), cs[1..])
  }

  lemma NextApplies(crypto: Crypto, self: DeviceId, l: Ledger, c: Control)
    requires ReadHistory(crypto, l).Some? && ControlsEndAt(l.controls, l.history.value.endpoint)
    requires InSuccession(crypto, self, l.history.value, [c])
    ensures var run := Settle(crypto, self, l, c, ExpectedReceipt(c)); var w := Final(run);
            && run.ok && w.history == Some(Next(l.history.value, c)) && ReadHistory(crypto, w).Some?
            && ControlsEndAt(w.controls, w.history.value.endpoint)
            && EpochOf(c) !in l.controls && w.controls == l.controls[EpochOf(c) := c]
            && EpochOf(c) == w.history.value.endpoint.controlEpoch
  {
    assert EpochOf(c) !in l.controls;
    SettlesAtParent(crypto, self, l, c);
    SettleEnds(crypto, self, l, c);
  }

  /** The new records are numbered on from `base`, in order, and the old ones are still there. */
  predicate Numbered(before: map<nat, Control>, after: map<nat, Control>, base: nat, cs: seq<Control>)
  {
    && (forall epoch | epoch in before :: epoch in after && after[epoch] == before[epoch])
    && (forall epoch | base < epoch <= base + |cs| :: epoch in after && after[epoch] == cs[epoch - base - 1])
  }

  lemma NumberedOn(before: map<nat, Control>, after: map<nat, Control>, base: nat, cs: seq<Control>)
    requires cs != [] && base + 1 !in before && Numbered(before[base + 1 := cs[0]], after, base + 1, cs[1..])
    ensures Numbered(before, after, base, cs)
  {
    forall epoch | epoch in before ensures epoch in after && after[epoch] == before[epoch]
    {
      assert epoch in before[base + 1 := cs[0]];
    }
    forall epoch | base < epoch <= base + |cs| ensures epoch in after && after[epoch] == cs[epoch - base - 1]
    {
      if epoch == base + 1 { assert epoch in before[base + 1 := cs[0]]; }
    }
  }

  /** As long as no record was missed or overtaken, every succession of revocations applies, however long; each is
      recorded under the control epoch it leads to, no earlier record is lost, and both epochs advance by one each. */
  lemma {:induction false} SuccessionAllApplies(crypto: Crypto, self: DeviceId, l: Ledger, cs: seq<Control>)
    requires ReadHistory(crypto, l).Some? && ControlsEndAt(l.controls, l.history.value.endpoint)
    requires InSuccession(crypto, self, l.history.value, cs)
    ensures AllApply(crypto, self, l, cs)
    ensures var w := AfterAll(crypto, self, l, cs); var from := l.history.value.endpoint;
            && w.history.Some? && w.history.value.endpoint.controlEpoch == from.controlEpoch + |cs|
            && w.history.value.endpoint.keyEpoch == from.keyEpoch + |cs|
            && Numbered(l.controls, w.controls, from.controlEpoch, cs)
    decreases |cs|
  {
    if cs != [] {
      assert [cs[0]][1..] == [];
      NextApplies(crypto, self, l, cs[0]);
      var w := Final(Settle(crypto, self, l, cs[0], ExpectedReceipt(cs[0])));
      SuccessionAllApplies(crypto, self, w, cs[1..]);
      NumberedOn(l.controls, AfterAll(crypto, self, w, cs[1..]).controls, l.history.value.endpoint.controlEpoch, cs);
    }
  }

  /** A revocation whose parent is not where the newest stored record leads is refused, however genuine, lawful and
      openable everything else is: the vault is left as it was, without a record. */
  lemma OlderRecordRefuses(crypto: Crypto, self: DeviceId, l: Ledger, c: Control, newest: nat)
    requires ReadHistory(crypto, l).Some? && Unfinished(l, c) && EpochOf(c) !in l.controls
    requires newest in l.controls && forall epoch | epoch in l.controls :: epoch <= newest
    ensures SuccessorOf(l.controls[newest]) != c.parent ==>
              && Settle(crypto, self, l, c, ExpectedReceipt(c)) == Stop(l, false)
              && !Recorded(l, c)
  {
    SettlesAtParent(crypto, self, l, c);
  }

  /** An application whose history has moved past the successor, with its event and record in place, changes
      nothing but the activation. */
  lemma MovedOnHistoryIsKept(crypto: Crypto, self: DeviceId, v: VaultState, intent: Intent)
    requires var c, l := intent.control, v.ledger;
             && c.op in v.intents && v.intents[c.op].intent == intent
             && v.intents[c.op].disposition == Accepted(ExpectedReceipt(c))
             && ReadHistory(crypto, l).Some? && l.history.value.endpoint != c.parent
             && EventOf(c) in l.history.value.events && Recorded(l, c)
    ensures var c, l := intent.control, v.ledger;
            var run := Apply(crypto, self, v, intent, ExpectedReceipt(c));
            && Final(run).ledger.history == l.history && Final(run).ledger.controls == l.controls
            && Final(run).intents == v.intents
            && run.ok == (c.target == self || crypto.openable(l.history.value))
  {
    FinishResumes(crypto, self, v.ledger, intent.control, v.ledger.history.value.endpoint, 0);
  }

  // ----- Reconciling membership -----

  /** `reconcile_membership`: walk back from the remote endpoint, accept the extension, activate. */
  function Reconcile(crypto: Crypto, l: Ledger, remote: Endpoint, fetch: Fetch): (run: Run<Ledger>)
    ensures run.trail != [] && run.trail[0] == l
  {
    var read := ReadHistory(crypto, l);
    if read.None? then Stop(l, false)
    else
      var local := read.value.endpoint;
      if local == remote then Stop(l, true)
      else
        var walked := WalkBack(fetch, local.state, remote.state, 0, 0);
        if !walked.Found? then Stop(l, false)
        else
          var extended := AcceptExtension(crypto, l, local, remote, walked.events);
          if extended.None? then Stop(l, false)
          else
            var active := Activate(crypto, extended.value, remote);
            if active.None? then Then(l, Stop(extended.value, false))
            else Then(l, Then(extended.value, Stop(active.value, true)))
  }

  method ReconcileMembership(vault: Vault, remote: Endpoint, fetch: Fetch) returns (ok: bool)
    modifies vault
    ensures ok == Reconcile(vault.crypto, old(vault.Records()), remote, fetch).ok
    ensures vault.Records() == Final(Reconcile(vault.crypto, old(vault.Records()), remote, fetch))
    ensures vault.intents == old(vault.intents)
  {
    if vault.history.None? || !vault.crypto.genuine(vault.history.value) {
      return false;
    }
    var local := vault.history.value.endpoint;
    if local == remote {
      return true;
    }
    var walked, fetches := Walk(local.state, remote.state, fetch);
    if !walked.Found? {
      return false;
    }
    ok := vault.Extend(local, remote, walked.events);
    if ok {
      ok := vault.ActivateCurrent(remote);
    }
  }

  /** The chain found leads on genuinely, within the budget, to a history whose keys open. */
  predicate LeadsOn(crypto: Crypto, h: History, remote: Endpoint, walked: Walked)
  {
    && walked.Found? && walked.events != [] && Bytes(crypto, walked.events) <= MAX_BYTES
    && crypto.genuine(History(h.events + walked.events, remote))
  }

  /** Reconciliation succeeds exactly when the verified history is at the remote endpoint, or a chain is found that
      leads on to it and its keys open. It then ends there, active unless it already was there; a chain that leads on
      but does not open extends the history and fails; in every other case nothing is changed. */
  lemma ReconcilesExactly(crypto: Crypto, l: Ledger, remote: Endpoint, fetch: Fetch)
    ensures var run := Reconcile(crypto, l, remote, fetch);
            if ReadHistory(crypto, l).None? then run == Stop(l, false)
            else
              var h := l.history.value;
              var walked := WalkBack(fetch, h.endpoint.state, remote.state, 0, 0);
              if h.endpoint == remote then run == Stop(l, true)
              else if !LeadsOn(crypto, h, remote, walked) then run == Stop(l, false)
              else
                var longer := History(h.events + walked.events, remote);
                && (run.ok <==> crypto.openable(longer))
                && Final(run) == Ledger(Some(longer), l.controls, if run.ok then Some(remote) else l.activation)
                && run.trail[1] == Ledger(Some(longer), l.controls, l.activation)
  {
    if ReadHistory(crypto, l).Some? && l.history.value.endpoint != remote {
      var h := l.history.value;
      var walked := WalkBack(fetch, h.endpoint.state, remote.state, 0, 0);
      if walked.Found? && walked.events != [] {
        FoundChainIsSound(fetch, h.endpoint.state, remote.state, 0, 0);
        LinkedMeans(walked.events, h.endpoint.state, remote.state);
      }
    }
  }

  ghost predicate ExtendsBy(l: Ledger, w: Ledger, chain: seq<Event>)
  {
    && l.history.Some? && w.history.Some?
    && w.history.value.events == l.history.value.events + chain
    && Linked(chain, l.history.value.endpoint.state, w.history.value.endpoint.state)
  }

  /** Success means the local history is the old one plus a gap-free chain up to the remote endpoint, fetched link
      by link within both budgets; the control records stay as they are. */
  lemma ReconcileAchieves(crypto: Crypto, l: Ledger, remote: Endpoint, fetch: Fetch)
    requires Reconcile(crypto, l, remote, fetch).ok
    ensures var w := Final(Reconcile(crypto, l, remote, fetch));
            && w.history.Some? && w.history.value.endpoint == remote && crypto.genuine(w.history.value)
            && (l.history.value.endpoint != remote ==> w.activation == Some(remote) && crypto.openable(w.history.value))
            && w.controls == l.controls
            && exists chain ::
                 && ExtendsBy(l, w, chain)
                 && |chain| <= MAX_EVENTS && Answers(fetch, 0, chain) && AnswerBytes(fetch, 0, chain) <= MAX_BYTES
  {
    var h, w := l.history.value, Final(Reconcile(crypto, l, remote, fetch));
    if h.endpoint == remote {
      assert h.events == h.events + [];
      assert ExtendsBy(l, w, []) && Answers(fetch, 0, []);
    } else {
      FoundChainIsSound(fetch, h.endpoint.state, remote.state, 0, 0);
      assert ExtendsBy(l, w, WalkBack(fetch, h.endpoint.state, remote.state, 0, 0).events);
    }
  }
}
