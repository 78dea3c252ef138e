/** What a restart does to accepted revocations (`resume_prepared_decisions` and `resume_accepted_revocations` in
    crates/contextd/src/pairing.rs): submissions under way become unconfirmed, then every accepted receipt is applied
    again, in the order of the ids, until one fails. */
module Restart {
  import opened Membership
  import opened Options
  import opened Revocation
  import opened RevocationVault

  // ----- The loop -----

  datatype Resumed = Resumed(vault: VaultState, ok: bool)

  /** Re-apply every accepted receipt among `ids`, in order, stopping at the first that fails. */
  function ResumeAll(crypto: Crypto, self: DeviceId, v: VaultState, ids: seq<OpId>): Resumed
    decreases |ids|
  {
    if ids == [] then Resumed(v, true)
    else if ids[0] !in v.intents then Resumed(v, false)
    else
      match v.intents[ids[0]].disposition
      case Accepted(receipt) =>
        var run := Apply(crypto, self, v, v.intents[ids[0]].intent, receipt);
        if run.ok then ResumeAll(crypto, self, Final(run), ids[1..]) else Resumed(Final(run), false)
      case _ => ResumeAll(crypto, self, v, ids[1..])
  }

  lemma {:induction false} ResumeInParts(crypto: Crypto, self: DeviceId, v: VaultState, a: seq<OpId>, b: seq<OpId>)
    ensures var first := ResumeAll(crypto, self, v, a);
            ResumeAll(crypto, self, v, a + b) == if first.ok then ResumeAll(crypto, self, first.vault, b) else first
    decreases |a|
  {
    if a == [] {
      assert a + b == b;
    } else {
      assert (a + b)[1..] == a[1..] + b;
      if a[0] in v.intents {
        match v.intents[a[0]].disposition {
          case Accepted(receipt) =>
            ResumeInParts(crypto, self, Final(Apply(crypto, self, v, v.intents[a[0]].intent, receipt)), a[1..], b);
          case _ =>
            ResumeInParts(crypto, self, v, a[1..], b);
        }
      }
    }
  }

  const PAGE: nat := 50
  const MAX_INTENTS: nat := 4096
  const WHOLE_PAGES: nat := 4050

  /** `device_revocation_intent_ids`: the next ids above a cursor, a page at a time. */
  function Above(ids: seq<OpId>, after: Option<OpId>): seq<OpId>
  {
    if ids == [] || after.None? || after.value < ids[0] then ids else Above(ids[1..], after)
  }

  function Page(ids: seq<OpId>, after: Option<OpId>): seq<OpId>
  {
    var rest := Above(ids, after);
    if |rest| <= PAGE then rest else rest[..PAGE]
  }

  predicate Increasing(ids: seq<OpId>) { forall i, j | 0 <= i < j < |ids| :: ids[i] < ids[j] }

  lemma {:induction false} AboveCursor(ids: seq<OpId>, n: nat)
    requires Increasing(ids) && 0 < n <= |ids|
    ensures Above(ids, Some(ids[n - 1])) == ids[n..]
  {
    if n == 1 {
      assert Above(ids[1..], Some(ids[0])) == ids[1..];
    } else {
      AboveCursor(ids[1..], n - 1);
      assert ids[1..][n - 1..] == ids[n..];
    }
  }

  lemma PageStep(ids: seq<OpId>, after: Option<OpId>, count: nat)
    requires Increasing(ids) && count <= |ids| && Above(ids, after) == ids[count..]
    ensures var page := Page(ids, after);
            && count + |page| <= |ids|
            && ids[count..] == page + ids[count + |page|..]
            && (page == [] ==> count == |ids|)
            && (page != [] ==> Above(ids, Some(page[|page| - 1])) == ids[count + |page|..])
            && (|page| == PAGE || count + |page| == |ids|) && |page| <= PAGE
  {
    var page := Page(ids, after);
    if page != [] {
      assert page[|page| - 1] == ids[count + |page| - 1];
      AboveCursor(ids, count + |page|);
    }
  }

  /** The ids that are resumed: all of them, or the whole pages within the limit. */
  function Allowed(ids: seq<OpId>): seq<OpId>
  {
    if |ids| <= MAX_INTENTS then ids else ids[..WHOLE_PAGES]
  }

  /** A further page either is within what is allowed, or would pass the limit when all that is allowed is done. */
  lemma AllowedPage(ids: seq<OpId>, pages: nat, count: nat, page: seq<OpId>)
    requires count == |ids| || count == PAGE * pages
    requires count <= |Allowed(ids)| && count + |page| <= |ids| && ids[count..] == page + ids[count + |page|..]
    requires |page| <= PAGE && (|page| == PAGE || count + |page| == |ids|) && page != []
    ensures count + |page| <= MAX_INTENTS ==>
              && count + |page| <= |Allowed(ids)| && Allowed(ids)[count..] == page + Allowed(ids)[count + |page|..]
              && (count + |page| == |ids| || count + |page| == PAGE * (pages + 1))
    ensures MAX_INTENTS < count + |page| ==> MAX_INTENTS < |ids| && Allowed(ids)[count..] == []
  {
    assert page == ids[count..][..|page|];
  }

  /** The ids of a vault, in the order its index holds them. */
  ghost predicate Lists(ids: seq<OpId>, intents: Intents)
  {
    Increasing(ids) && multiset(ids) == multiset(intents.Keys)
  }

  /** One page; what is left of the loop after it is the rest. */
  method ResumePage(vault: Vault, self: DeviceId, page: seq<OpId>, ghost rest: seq<OpId>) returns (ok: bool)
    modifies vault
    ensures Resumed(vault.State(), ok) == ResumeAll(vault.crypto, self, old(vault.State()), page)
    ensures ResumeAll(vault.crypto, self, old(vault.State()), page + rest) ==
            if ok then ResumeAll(vault.crypto, self, vault.State(), rest) else Resumed(vault.State(), false)
  {
    ghost var start := vault.State();
    ResumeInParts(vault.crypto, self, start, page, rest);
    for i := 0 to |page|
      invariant ResumeAll(vault.crypto, self, start, page) == ResumeAll(vault.crypto, self, vault.State(), page[i..])
    {
      assert page[i..][1..] == page[i + 1..];
      if page[i] !in vault.intents {
        return false;
      }
      match vault.intents[page[i]].disposition {
        case Accepted(receipt) =>
          ok := ApplyRevocationReceipt(vault, self, vault.intents[page[i]].intent, receipt);
          if !ok {
            return;
          }
        case _ =>
      }
    }
    return true;
  }

  /** The next page above the cursor: it starts what is still to be resumed, unless there is none or it would pass the
      limit, and then nothing is. */
  method TurnPage(ids: seq<OpId>, after: Option<OpId>, count: nat, ghost pages: nat)
    returns (page: seq<OpId>, fits: bool)
    requires Increasing(ids) && count <= |Allowed(ids)| && Above(ids, after) == ids[count..]
    requires count == |ids| || count == PAGE * pages
    ensures page == [] ==> fits && |ids| <= MAX_INTENTS && Allowed(ids)[count..] == []
    ensures !fits ==> MAX_INTENTS < |ids| && Allowed(ids)[count..] == []
    ensures page != [] && fits ==>
              && count + |page| <= |Allowed(ids)| && (count + |page| == |ids| || count + |page| == PAGE * (pages + 1))
              && Above(ids, Some(page[|page| - 1])) == ids[count + |page|..]
              && Allowed(ids)[count..] == page + Allowed(ids)[count + |page|..]
  {
    page := Page(ids, after);
    fits := count + |page| <= MAX_INTENTS;
    PageStep(ids, after, count);
    if page != [] { AllowedPage(ids, pages, count, page); }
  }

  /** `resume_accepted_revocations`: paging through the stored ids visits each exactly once, in order. With more ids
      than the limit it fails, having resumed the whole pages that fit. */
  method ResumeAcceptedRevocations(vault: Vault, self: DeviceId, ids: seq<OpId>) returns (ok: bool)
    requires Lists(ids, vault.intents)
    modifies vault
    ensures var all := ResumeAll(vault.crypto, self, old(vault.State()), Allowed(ids));
            vault.State() == all.vault && ok == (all.ok && |ids| <= MAX_INTENTS)
  {
    ghost var goal, left := ResumeAll(vault.crypto, self, vault.State(), Allowed(ids)), Allowed(ids);
    var after: Option<OpId> := None;
    var count := 0;
    ghost var pages := 0;
    while true
      invariant 0 <= count <= |Allowed(ids)| && Above(ids, after) == ids[count..] && left == Allowed(ids)[count..]
      invariant count == |ids| || count == PAGE * pages
      invariant goal == ResumeAll(vault.crypto, self, vault.State(), left)
      decreases |ids| - count
    {
      var page, fits := TurnPage(ids, after, count, pages);
      if page == [] || !fits {
        return fits;
      }
      left := Allowed(ids)[count + |page|..];
      ok := ResumePage(vault, self, page, left);
      if !ok {
        return;
      }
      count, pages, after := count + |page|, pages + 1, Some(page[|page| - 1]);
    }
  }

  /** `resume_prepared_decisions`: what the daemon does first after a restart. */
  function Restarted(crypto: Crypto, self: DeviceId, v: VaultState, ids: seq<OpId>): Resumed
  {
    ResumeAll(crypto, self, v.(intents := RecoverSubmissions(v.intents)), ids)
  }

  /** `resume_prepared_decisions` on the vault. */
  method ResumePreparedDecisions(vault: Vault, self: DeviceId, ids: seq<OpId>) returns (ok: bool)
    requires Lists(ids, vault.intents)
    modifies vault
    ensures var all := Restarted(vault.crypto, self, old(vault.State()), Allowed(ids));
            vault.State() == all.vault && ok == (all.ok && |ids| <= MAX_INTENTS)
  {
    vault.Recover();
    ghost var recovered := RecoverSubmissions(old(vault.intents));
    assert vault.intents.Keys == recovered.Keys;
    assert forall op | op in recovered :: vault.intents[op] == recovered[op];
    assert vault.intents == recovered;
    ok := ResumeAcceptedRevocations(vault, self, ids);
  }

  // ----- Receipts that are already settled -----

  /** The two ledgers hold the same history and control records. */
  predicate SameRecords(l: Ledger, w: Ledger) { l.history == w.history && l.controls == w.controls }

  /** The activation is as before, or at the end of the history. */
  predicate ActivatedAtMost(l: Ledger, w: Ledger)
  {
    w.activation == l.activation || (l.history.Some? && w.activation == Some(l.history.value.endpoint))
  }

  /** A receipt that will not advance the history applies exactly when it is settled, and changes no record. */
  lemma SettledExactly(crypto: Crypto, self: DeviceId, l: Ledger, c: Control)
    requires !Unfinished(l, c)
    ensures var run := Settle(crypto, self, l, c, ExpectedReceipt(c));
            && (run.ok <==> Settled(crypto, self, l, c))
            && SameRecords(Final(run), l) && ActivatedAtMost(l, Final(run))
  {
  }

  /** Both runs report the same and end with the same records; if they activated anything, with the same ledger. */
  predicate EndsAlike(a: Run<Ledger>, b: Run<Ledger>, activates: bool)
    requires a.trail != [] && b.trail != []
  {
    a.ok == b.ok && SameRecords(Final(a), Final(b)) && (a.ok && activates ==> Final(a) == Final(b))
  }

  lemma FinishIgnoresActivation(crypto: Crypto, self: DeviceId, l: Ledger, w: Ledger, c: Control, end: Endpoint)
    requires SameRecords(l, w)
    ensures EndsAlike(Finish(crypto, self, l, c, end), Finish(crypto, self, w, c, end), c.target != self)
  {
  }

  lemma AfterwardsAlike(l: Ledger, w: Ledger, a: Run<Ledger>, b: Run<Ledger>, activates: bool)
    requires a.trail != [] && b.trail != [] && EndsAlike(a, b, activates)
    ensures EndsAlike(Then(l, a), Then(w, b), activates)
  {
    assert Final(Then(l, a)) == Final(a) && Final(Then(w, b)) == Final(b);
  }

  lemma ExtendIgnoresActivation(crypto: Crypto, self: DeviceId, l: Ledger, w: Ledger, c: Control)
    requires SameRecords(l, w)
    ensures EndsAlike(ExtendAndFinish(crypto, self, l, c, ExpectedReceipt(c)),
                      ExtendAndFinish(crypto, self, w, c, ExpectedReceipt(c)), c.target != self)
  {
    var a := AcceptExtension(crypto, l, c.parent, SuccessorOf(c), [EventOf(c)]);
    var b := AcceptExtension(crypto, w, c.parent, SuccessorOf(c), [EventOf(c)]);
    if a.Some? {
      FinishIgnoresActivation(crypto, self, a.value, b.value, c, SuccessorOf(c));
      AfterwardsAlike(l, w, Finish(crypto, self, a.value, c, SuccessorOf(c)),
                      Finish(crypto, self, b.value, c, SuccessorOf(c)), c.target != self);
    }
  }

  lemma CommitIgnoresActivation(crypto: Crypto, self: DeviceId, l: Ledger, w: Ledger, c: Control)
    requires SameRecords(l, w) && ReadHistory(crypto, l).Some? && Unfinished(l, c)
    ensures EndsAlike(Settle(crypto, self, l, c, ExpectedReceipt(c)), Settle(crypto, self, w, c, ExpectedReceipt(c)),
                      c.target != self)
  {
    var a, b := CommitControl(crypto, l, c, l.history.value), CommitControl(crypto, w, c, l.history.value);
    if a.Some? {
      ExtendIgnoresActivation(crypto, self, a.value, b.value, c);
      AfterwardsAlike(l, w, ExtendAndFinish(crypto, self, a.value, c, ExpectedReceipt(c)),
                      ExtendAndFinish(crypto, self, b.value, c, ExpectedReceipt(c)), c.target != self);
    }
  }

  /** Settling reads no activation. */
  lemma SettleIgnoresActivation(crypto: Crypto, self: DeviceId, l: Ledger, w: Ledger, c: Control)
    requires SameRecords(l, w)
    ensures EndsAlike(Settle(crypto, self, l, c, ExpectedReceipt(c)), Settle(crypto, self, w, c, ExpectedReceipt(c)),
                      c.target != self)
  {
    if ReadHistory(crypto, l).Some? {
      if Unfinished(l, c) {
        CommitIgnoresActivation(crypto, self, l, w, c);
      } else {
        FinishIgnoresActivation(crypto, self, l, w, c, l.history.value.endpoint);
      }
    }
  }

  predicate Holds(intents: Intents, op: OpId) { op in intents && intents[op].disposition.Accepted? }

  /** Applying a receipt that is already recorded keeps the intents and settles the ledger. */
  lemma ApplyRecorded(crypto: Crypto, self: DeviceId, v: VaultState, op: OpId)
    requires WellKept(v.intents) && Holds(v.intents, op)
    ensures var c := v.intents[op].intent.control;
            var run := Apply(crypto, self, v, v.intents[op].intent, v.intents[op].disposition.receipt);
            var settled := Settle(crypto, self, v.ledger, c, ExpectedReceipt(c));
            run.ok == settled.ok && Final(run) == VaultState(Final(settled), v.intents)
  {
  }

  ghost predicate Quiet(l: Ledger, intents: Intents, ids: seq<OpId>)
  {
    forall i | 0 <= i < |ids| && Holds(intents, ids[i]) :: !Unfinished(l, intents[ids[i]].intent.control)
  }

  ghost predicate AllSettled(crypto: Crypto, self: DeviceId, l: Ledger, intents: Intents, ids: seq<OpId>)
  {
    forall i | 0 <= i < |ids| && Holds(intents, ids[i]) :: Settled(crypto, self, l, intents[ids[i]].intent.control)
  }

  predicate Known(intents: Intents, ids: seq<OpId>) { forall i | 0 <= i < |ids| :: ids[i] in intents }

  /** Resuming receipts none of which advances the history succeeds exactly when each is settled, and in either case
      leaves history and control records as they are. */
  lemma {:induction false} ResumeQuietly(crypto: Crypto, self: DeviceId, v: VaultState, ids: seq<OpId>)
    requires WellKept(v.intents) && Known(v.intents, ids) && Quiet(v.ledger, v.intents, ids)
    ensures var r := ResumeAll(crypto, self, v, ids);
            && (r.ok <==> AllSettled(crypto, self, v.ledger, v.intents, ids))
            && r.vault.intents == v.intents
            && SameRecords(r.vault.ledger, v.ledger) && ActivatedAtMost(v.ledger, r.vault.ledger)
    decreases |ids|
  {
    if ids != [] {
      var op, rest := ids[0], ids[1..];
      var next := v;
      if Holds(v.intents, op) {
        ApplyRecorded(crypto, self, v, op);
        SettledExactly(crypto, self, v.ledger, v.intents[op].intent.control);
        next := Final(Apply(crypto, self, v, v.intents[op].intent, v.intents[op].disposition.receipt));
      }
      ResumeQuietly(crypto, self, next, rest);
      SettledAlike(crypto, self, v.ledger, next.ledger, v.intents, rest);
      SettledFirst(crypto, self, v.ledger, v.intents, ids);
    }
  }

  lemma SettledAlike(crypto: Crypto, self: DeviceId, l: Ledger, w: Ledger, intents: Intents, ids: seq<OpId>)
    requires SameRecords(l, w)
    ensures AllSettled(crypto, self, l, intents, ids) <==> AllSettled(crypto, self, w, intents, ids)
  {
    assert forall c :: Settled(crypto, self, l, c) <==> Settled(crypto, self, w, c);
  }

  lemma SettledFirst(crypto: Crypto, self: DeviceId, l: Ledger, intents: Intents, ids: seq<OpId>)
    requires ids != []
    ensures AllSettled(crypto, self, l, intents, ids)
        <==> (Holds(intents, ids[0]) ==> Settled(crypto, self, l, intents[ids[0]].intent.control))
             && AllSettled(crypto, self, l, intents, ids[1..])
  {
    if AllSettled(crypto, self, l, intents, ids[1..]) {
      assert forall i | 0 < i < |ids| :: ids[i] == ids[1..][i - 1];
    }
  }

  // ----- What a restart comes to -----

  /** `ids` are stored ids in order, and the receipt of `ids[k]` is recorded. */
  ghost predicate Resumable(intents: Intents, ids: seq<OpId>, k: nat)
  {
    WellKept(intents) && Increasing(ids) && Known(intents, ids) && k < |ids| && Holds(intents, ids[k])
  }

  /** No other accepted receipt is left to advance the history: not the earlier ones before this one is applied, nor the
      later ones after. */
  ghost predicate NoOtherUnfinished(v: VaultState, ids: seq<OpId>, k: nat, applied: Ledger)
    requires k < |ids|
  {
    Quiet(v.ledger, v.intents, ids[..k]) && Quiet(applied, v.intents, ids[k + 1..])
  }

  lemma RecoveryKeepsAccepted(intents: Intents, ids: seq<OpId>)
    ensures var after := RecoverSubmissions(intents);
            && (WellKept(intents) ==> WellKept(after)) && (Known(intents, ids) ==> Known(after, ids))
            && (forall op | op in intents :: Holds(after, op) <==> Holds(intents, op))
            && (forall op | op in intents && Holds(intents, op) :: after[op] == intents[op])
            && (forall op | op in intents :: after[op].intent == intents[op].intent)
  {
  }

  lemma RecoveryKeepsSettled(crypto: Crypto, self: DeviceId, l: Ledger, intents: Intents, ids: seq<OpId>)
    requires Known(intents, ids)
    ensures var after := RecoverSubmissions(intents);
            && (Quiet(l, after, ids) <==> Quiet(l, intents, ids))
            && (AllSettled(crypto, self, l, after, ids) <==> AllSettled(crypto, self, l, intents, ids))
  {
    RecoveryKeepsAccepted(intents, ids);
  }

  /** The loop, cut before and after one of its ids. */
  lemma ResumeAround(crypto: Crypto, self: DeviceId, v: VaultState, ids: seq<OpId>, k: nat)
    requires k < |ids|
    ensures var first := ResumeAll(crypto, self, v, ids[..k]);
            ResumeAll(crypto, self, v, ids) ==
            if !first.ok then first
            else
              var second := ResumeAll(crypto, self, first.vault, [ids[k]]);
              if !second.ok then second else ResumeAll(crypto, self, second.vault, ids[k + 1..])
  {
    assert ids == ids[..k] + ids[k..] && ids[k..] == [ids[k]] + ids[k + 1..];
    ResumeInParts(crypto, self, v, ids[..k], ids[k..]);
    ResumeInParts(crypto, self, ResumeAll(crypto, self, v, ids[..k]).vault, [ids[k]], ids[k + 1..]);
  }

  /** The step of the loop for one recorded receipt is its settling. */
  lemma ResumeOne(crypto: Crypto, self: DeviceId, v: VaultState, op: OpId)
    requires WellKept(v.intents) && Holds(v.intents, op)
    ensures var c := v.intents[op].intent.control; var settled := Settle(crypto, self, v.ledger, c, ExpectedReceipt(c));
            ResumeAll(crypto, self, v, [op]) == Resumed(VaultState(Final(settled), v.intents), settled.ok)
  {
    ApplyRecorded(crypto, self, v, op);
    var run := Apply(crypto, self, v, v.intents[op].intent, v.intents[op].disposition.receipt);
    assert ResumeAll(crypto, self, Final(run), []) == Resumed(Final(run), true);
    assert [op][1..] == [];
  }

  /** The same over ledgers: resuming everything against settling one. */
  lemma ResumeIsOneSettling(crypto: Crypto, self: DeviceId, v: VaultState, ids: seq<OpId>, k: nat)
    requires Resumable(v.intents, ids, k)
    requires var c := v.intents[ids[k]].intent.control;
             NoOtherUnfinished(v, ids, k, Final(Settle(crypto, self, v.ledger, c, ExpectedReceipt(c))))
    ensures var c := v.intents[ids[k]].intent.control; var run := Settle(crypto, self, v.ledger, c, ExpectedReceipt(c));
            var r := ResumeAll(crypto, self, v, ids);
            var reached := AllSettled(crypto, self, v.ledger, v.intents, ids[..k]);
            && (r.ok <==> reached && run.ok && AllSettled(crypto, self, Final(run), v.intents, ids[k + 1..]))
            && SameRecords(r.vault.ledger, if reached then Final(run) else v.ledger)
            && (r.ok && c.target != self ==> r.vault.ledger == Final(run))
            && r.vault.intents == v.intents
  {
    var c := v.intents[ids[k]].intent.control;
    ResumeAround(crypto, self, v, ids, k);
    ResumeQuietly(crypto, self, v, ids[..k]);
    var first := ResumeAll(crypto, self, v, ids[..k]);
    if first.ok {
      SettleIgnoresActivation(crypto, self, v.ledger, first.vault.ledger, c);
      ResumeOne(crypto, self, first.vault, ids[k]);
      var run := Settle(crypto, self, v.ledger, c, ExpectedReceipt(c));
      var second := ResumeAll(crypto, self, first.vault, [ids[k]]);
      if second.ok {
        ResumeQuietly(crypto, self, second.vault, ids[k + 1..]);
        SettledAlike(crypto, self, second.vault.ledger, Final(run), v.intents, ids[k + 1..]);
        if c.target != self {
          ActivationStands(crypto, self, v.ledger, c, ResumeAll(crypto, self, second.vault, ids[k + 1..]).vault.ledger);
        }
      }
    }
  }

  lemma ActivationStands(crypto: Crypto, self: DeviceId, l: Ledger, c: Control, later: Ledger)
    requires Settle(crypto, self, l, c, ExpectedReceipt(c)).ok && c.target != self
    requires var done := Final(Settle(crypto, self, l, c, ExpectedReceipt(c)));
             SameRecords(later, done) && ActivatedAtMost(done, later)
    ensures later == Final(Settle(crypto, self, l, c, ExpectedReceipt(c)))
  {
    SettleAchieves(crypto, self, l, c);
  }

  /** A restart against one application of a recorded receipt, with any number of other accepted receipts in the vault.
      It succeeds exactly when every accepted receipt with a smaller id is settled, this one applies, and every one with
      a larger id is settled after it. Once the smaller ones are settled the history and the control records are those
      of the one application; if one of them is not, nothing is applied. */
  lemma RestartAppliesOnce(crypto: Crypto, self: DeviceId, v: VaultState, ids: seq<OpId>, k: nat)
    requires Resumable(v.intents, ids, k)
    requires NoOtherUnfinished(v, ids, k, Final(Apply(crypto, self, v, v.intents[ids[k]].intent,
                                                      v.intents[ids[k]].disposition.receipt)).ledger)
    ensures var intent := v.intents[ids[k]].intent;
            var run := Apply(crypto, self, v, intent, v.intents[ids[k]].disposition.receipt);
            var r := Restarted(crypto, self, v, ids);
            var reached := AllSettled(crypto, self, v.ledger, v.intents, ids[..k]);
            var applies := Ripe(crypto, self, v.ledger, intent.control) ||
                           Settled(crypto, self, v.ledger, intent.control);
            && (r.ok <==> reached && applies && AllSettled(crypto, self, Final(run).ledger, v.intents, ids[k + 1..]))
            && (run.ok <==> applies)
            && SameRecords(r.vault.ledger, if reached then Final(run).ledger else v.ledger)
            && (r.ok && intent.control.target != self ==> r.vault.ledger == Final(run).ledger)
            && r.vault.intents == RecoverSubmissions(v.intents)
  {
    var w := v.(intents := RecoverSubmissions(v.intents));
    RecoveryKeepsAccepted(v.intents, ids);
    ApplyRecorded(crypto, self, v, ids[k]);
    var c := v.intents[ids[k]];
    var applied := Final(Apply(crypto, self, v, c.intent, c.disposition.receipt)).ledger;
    RecoveryKeepsSettled(crypto, self, v.ledger, v.intents, ids[..k]);
    RecoveryKeepsSettled(crypto, self, applied, v.intents, ids[k + 1..]);
    ResumeIsOneSettling(crypto, self, w, ids, k);
    SettlesExactly(crypto, self, v.ledger, c.intent.control);
  }

  /** A crash anywhere after a receipt was recorded, then a restart: the same, against the application that was cut
      off. */
  lemma RestartCompletesCrashedApplication(crypto: Crypto, self: DeviceId, v: VaultState, intent: Intent,
                                           receipt: Receipt,
                                           i: nat, ids: seq<OpId>, k: nat)
    requires Knows(v, intent) && 0 < i < |Apply(crypto, self, v, intent, receipt).trail|
    requires var crashed := Apply(crypto, self, v, intent, receipt).trail[i];
             && Resumable(crashed.intents, ids, k) && ids[k] == intent.control.op
             && NoOtherUnfinished(crashed, ids, k, Final(Apply(crypto, self, v, intent, receipt)).ledger)
    ensures var run := Apply(crypto, self, v, intent, receipt);
            var crashed := run.trail[i];
            var r := Restarted(crypto, self, crashed, ids);
            var reached := AllSettled(crypto, self, crashed.ledger, crashed.intents, ids[..k]);
            && (r.ok <==> reached && run.ok
                          && AllSettled(crypto, self, Final(run).ledger, crashed.intents, ids[k + 1..]))
            && SameRecords(r.vault.ledger, if reached then Final(run).ledger else crashed.ledger)
            && (r.ok && intent.control.target != self ==> r.vault.ledger == Final(run).ledger)
  {
    var crashed := Apply(crypto, self, v, intent, receipt).trail[i];
    CrashedApplicationResumes(crypto, self, v, intent, receipt, i);
    assert crashed.intents[ids[k]].intent == intent && crashed.intents[ids[k]].disposition == Accepted(receipt);
    RestartAppliesOnce(crypto, self, crashed, ids, k);
  }

  // ----- When a restart does not get there -----

  /** Id `j` is known, and its receipt, if it has one, applies in the vault the loop reaches it with. */
  ghost predicate AppliesInTurn(crypto: Crypto, self: DeviceId, v: VaultState, ids: seq<OpId>, j: nat)
    requires j < |ids|
  {
    var s := ResumeAll(crypto, self, v, ids[..j]).vault;
    && ids[j] in s.intents
    && (Holds(s.intents, ids[j]) ==>
          Apply(crypto, self, s, s.intents[ids[j]].intent, s.intents[ids[j]].disposition.receipt).ok)
  }

  lemma ResumeNext(crypto: Crypto, self: DeviceId, v: VaultState, ids: seq<OpId>, j: nat)
    requires j < |ids|
    ensures ResumeAll(crypto, self, v, ids[..j + 1]).ok <==>
            ResumeAll(crypto, self, v, ids[..j]).ok && AppliesInTurn(crypto, self, v, ids, j)
  {
    assert ids[..j + 1] == ids[..j] + [ids[j]];
    ResumeInParts(crypto, self, v, ids[..j], [ids[j]]);
    assert [ids[j]][1..] == [];
  }

  /** In every vault, whatever else is unfinished: the loop gets as far as id `k` exactly when every receipt before it
      applies in its turn. */
  lemma {:induction false} ReachedExactlyWhenAllBeforeApply(crypto: Crypto, self: DeviceId, v: VaultState,
                                                            ids: seq<OpId>, k: nat)
    requires k <= |ids|
    ensures ResumeAll(crypto, self, v, ids[..k]).ok <==> forall j | 0 <= j < k :: AppliesInTurn(crypto, self, v, ids, j)
  {
    if k > 0 {
      ReachedExactlyWhenAllBeforeApply(crypto, self, v, ids, k - 1);
      ResumeNext(crypto, self, v, ids, k - 1);
    }
  }

  /** The history has left this revocation behind without its control record. */
  predicate Missed(l: Ledger, c: Control)
  {
    && l.history.Some? && !Recorded(l, c)
    && l.history.value.endpoint != c.parent && l.history.value.endpoint != SuccessorOf(c)
  }

  /** One such receipt with a smaller id keeps a restart from reaching the others. */
  lemma MissedRecordBlocksRestart(crypto: Crypto, self: DeviceId, v: VaultState, ids: seq<OpId>, j: nat, k: nat)
    requires Resumable(v.intents, ids, k) && j < k
    requires NoOtherUnfinished(v, ids, k, Final(Apply(crypto, self, v, v.intents[ids[k]].intent,
                                                      v.intents[ids[k]].disposition.receipt)).ledger)
    requires Holds(v.intents, ids[j]) && Missed(v.ledger, v.intents[ids[j]].intent.control)
    ensures var r := Restarted(crypto, self, v, ids); !r.ok && SameRecords(r.vault.ledger, v.ledger)
  {
    RestartAppliesOnce(crypto, self, v, ids, k);
    assert ids[..k][j] == ids[j];
  }

  /** A vault with two accepted receipts, no control record, and the history where the second starts. */
  function TwoAccepted(first: Intent, second: Intent, events: seq<Event>): VaultState
  {
    VaultState(Ledger(Some(History(events, second.control.parent)), map[], None),
               map[first.control.op := Coordination(first, false, Accepted(ExpectedReceipt(first.control))),
                   second.control.op := Coordination(second, false, Accepted(ExpectedReceipt(second.control)))])
  }

  /** A vault of that kind: the second revocation, on its own, applies and stores its record; but the history has passed
      the first without its record, and so a restart does not apply the second. */
  lemma BlockedVault(crypto: Crypto, self: DeviceId, first: Intent, second: Intent, events: seq<Event>)
    requires first.control.op < second.control.op
    requires Ripe(crypto, self, TwoAccepted(first, second, events).ledger, second.control)
    requires second.control.parent != first.control.parent && second.control.parent != SuccessorOf(first.control)
    ensures var v, c := TwoAccepted(first, second, events), second.control;
            && Apply(crypto, self, v, second, ExpectedReceipt(c)).ok
            && Recorded(Final(Apply(crypto, self, v, second, ExpectedReceipt(c))).ledger, c)
            && !Restarted(crypto, self, v, [first.control.op, c.op]).ok
            && SameRecords(Restarted(crypto, self, v, [first.control.op, c.op]).vault.ledger, v.ledger)
  {
    var v, ids := TwoAccepted(first, second, events), [first.control.op, second.control.op];
    SettlesExactly(crypto, self, v.ledger, second.control);
    ApplyRecorded(crypto, self, v, ids[1]);
    assert ids[..1] == [ids[0]] && ids[2..] == [];
    MissedRecordBlocksRestart(crypto, self, v, ids, 0, 1);
  }
}
