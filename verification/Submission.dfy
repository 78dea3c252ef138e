/** When a revocation is published (`execute_revocation` and `publish_revocation_intent` in
    crates/contextd/src/pairing.rs): requests run one at a time on the vault worker, each as a series of durable
    transactions and network calls, with a crash possible between any two of them. */
module Submission {
  import opened Options
  import opened Revocation
  import opened RevocationVault

  /** What the network says: a receipt, a refusal (conflict or invalid), or nothing usable. */
  datatype Outcome = Receipted(receipt: Receipt) | Refused | NoAnswer

  /** Where the one running request is. */
  datatype Job =
    | Idle
    | Down                                    // crashed, not yet restarted
    | Beginning(op: OpId)                     // the send branch was taken
    | Publishing(op: OpId, from: Disposition) // the submission began from that disposition
    | Settling(op: OpId)                      // published, outcome not yet recorded

  /** One publication, with the durable facts at that moment. */
  datatype Sent = Sent(op: OpId, from: Disposition, durable: Disposition, canceled: bool)

  datatype World = World(intents: Intents, job: Job, sent: seq<Sent>)

  datatype Event =
    | Store(intent: Intent)
    | Revoke(op: OpId)
    | Begin
    | Publish
    | Answer(outcome: Outcome)
    | GiveUp
    | Status(op: OpId, outcome: Outcome)
    | CancelRequest(op: OpId)
    | Crash
    | Restart

  const Initial: World := World(map[], Idle, [])

  /** Recording an outcome; a transaction that fails leaves the intents alone. */
  function Record(intents: Intents, op: OpId, outcome: Outcome, published: bool): Intents
  {
    var result := match outcome
      case Receipted(receipt) => AcceptReceipt(intents, op, receipt)
      case Refused => MarkConflict(intents, op)
      case NoAnswer => if published then MarkUnconfirmed(intents, op) else Some(intents);
    if result.Some? then result.value else intents
  }

  predicate Enabled(w: World, e: Event)
  {
    match e
    case Store(intent) => w.job.Idle? && intent.control.op !in w.intents
    case Revoke(op) => w.job.Idle? && op in w.intents
    case Begin => w.job.Beginning?
    case Publish => w.job.Publishing?
    case Answer(_) => w.job.Settling?
    case GiveUp => w.job.Beginning? || w.job.Publishing?
    case Status(op, _) => w.job.Idle? && op in w.intents
    case CancelRequest(op) => w.job.Idle? && op in w.intents
    case Crash => true
    case Restart => w.job.Down?
  }

  function Step(w: World, e: Event): World
    requires Enabled(w, e)
  {
    match e
    case Store(intent) => w.(intents := w.intents[intent.control.op := Coordination(intent, false, Prepared)])
    case Revoke(op) => if Sendable(w.intents[op]) then w.(job := Beginning(op)) else w
    case Begin =>
      var op := w.job.op;
      var began := BeginSubmission(w.intents, op);
      if began.None? then w.(job := Idle)
      else w.(intents := began.value, job := Publishing(op, w.intents[op].disposition))
    case Publish =>
      var op := w.job.op;
      if op !in w.intents then w.(job := Idle)
      else w.(job := Settling(op),
              sent := w.sent + [Sent(op, w.job.from, w.intents[op].disposition, w.intents[op].sendCanceled)])
    case Answer(outcome) => w.(intents := Record(w.intents, w.job.op, outcome, true), job := Idle)
    case GiveUp => w.(job := Idle)
    case Status(op, outcome) =>
      var d := w.intents[op].disposition;
      if d.Submitting? || d.Unconfirmed? then w.(intents := Record(w.intents, op, outcome, false)) else w
    case CancelRequest(op) => w.(intents := CancelSubmission(w.intents, op).value)
    case Crash => w.(job := Down)
    case Restart => w.(intents := RecoverSubmissions(w.intents), job := Idle)
  }

  /** What an outcome does to the history, the control records and the activation: only a receipt does anything. */
  function LedgerAfter(crypto: Crypto, self: DeviceId, v: VaultState, intent: Intent, outcome: Outcome): Ledger
  {
    if outcome.Receipted? then Final(Apply(crypto, self, v, intent, outcome.receipt)).ledger else v.ledger
  }

  /** The send branch of `execute_revocation` with `publish_revocation_intent`: nothing is sent unless the intent is
      sendable; then it is marked, published, and the outcome recorded and, if it is a receipt, applied. */
  method SendRevocation(vault: Vault, self: DeviceId, op: OpId, outcome: Outcome) returns (published: bool)
    requires WellKept(vault.intents)
    modifies vault
    ensures published == (op in old(vault.intents) && Sendable(old(vault.intents)[op]))
    ensures !published ==> vault.State() == old(vault.State())
    ensures published ==>
              var begun := old(vault.State()).(intents := Marked(old(vault.intents), op, Submitting));
              && vault.intents == Record(begun.intents, op, outcome, true)
              && vault.Records() == LedgerAfter(vault.crypto, self, begun, begun.intents[op].intent, outcome)
  {
    if op !in vault.intents || vault.intents[op].sendCanceled {
      return false;
    }
    if !(vault.intents[op].disposition.Prepared? || vault.intents[op].disposition.Unconfirmed?) {
      return false;
    }
    var ok := vault.Begin(op);
    assert vault.intents[op].disposition == Submitting;
    published := true;
    match outcome {
      case Receipted(receipt) => ok := ApplyRevocationReceipt(vault, self, vault.intents[op].intent, receipt);
      case Refused => ok := vault.SetConflict(op);
      case NoAnswer => ok := vault.SetUnconfirmed(op);
    }
  }

  // ----- The invariant -----

  predicate Startable(d: Disposition) { d.Prepared? || d.Unconfirmed? }

  /** Closed intents are never sent again. */
  predicate Closed(c: Coordination)
  {
    c.sendCanceled || c.disposition.Accepted? || c.disposition.Conflict? || c.disposition.CanceledBeforeSend?
  }

  ghost predicate JobSound(intents: Intents, job: Job)
  {
    match job
    case Beginning(op) => op in intents && Sendable(intents[op])
    case Publishing(op, from) =>
      op in intents && intents[op].disposition.Submitting? && !intents[op].sendCanceled && Startable(from)
    case Settling(op) => op in intents && intents[op].disposition.Submitting?
    case _ => true
  }

  /** Each publication was preceded by the durable mark, and only the first of an intent started from Prepared. */
  ghost predicate SentSound(sent: seq<Sent>)
  {
    && (forall k | 0 <= k < |sent| ::
          Startable(sent[k].from) && sent[k].durable.Submitting? && !sent[k].canceled)
    && (forall j, k | 0 <= j < k < |sent| && sent[j].op == sent[k].op :: sent[k].from.Unconfirmed?)
  }

  /** What was sent is past Prepared and not reported as canceled before sending. */
  ghost predicate SentMarked(intents: Intents, sent: seq<Sent>)
  {
    forall k | 0 <= k < |sent| ::
      && sent[k].op in intents
      && !intents[sent[k].op].disposition.Prepared? && !intents[sent[k].op].disposition.CanceledBeforeSend?
  }

  /** While a submission from Prepared is under way nothing of that intent has been sent. */
  ghost predicate FirstIsFirst(job: Job, sent: seq<Sent>)
  {
    job.Publishing? && job.from.Prepared? ==> forall k | 0 <= k < |sent| :: sent[k].op != job.op
  }

  ghost predicate Inv(w: World)
  {
    JobSound(w.intents, w.job) && SentSound(w.sent) && SentMarked(w.intents, w.sent) && FirstIsFirst(w.job, w.sent)
  }

  lemma StepKeepsInv(w: World, e: Event)
    requires Inv(w) && Enabled(w, e)
    ensures Inv(Step(w, e))
  {
  }

  function Exec(es: seq<Event>): World
  {
    if es == [] then Initial
    else
      var w := Exec(es[..|es| - 1]);
      if Enabled(w, es[|es| - 1]) then Step(w, es[|es| - 1]) else w
  }

  lemma {:induction false} EveryRunKeepsInv(es: seq<Event>)
    ensures Inv(Exec(es))
  {
    if es != [] {
      EveryRunKeepsInv(es[..|es| - 1]);
      if Enabled(Exec(es[..|es| - 1]), es[|es| - 1]) {
        StepKeepsInv(Exec(es[..|es| - 1]), es[|es| - 1]);
      }
    }
  }

  lemma StepKeepsFiling(w: World, e: Event)
    requires WellKept(w.intents) && Enabled(w, e)
    ensures WellKept(Step(w, e).intents)
  {
  }

  /** In every run each intent is filed under its own id, and an accepted receipt is the one expected for its intent. */
  lemma {:induction false} EveryRunKeepsFiling(es: seq<Event>)
    ensures WellKept(Exec(es).intents)
  {
    if es != [] {
      EveryRunKeepsFiling(es[..|es| - 1]);
      if Enabled(Exec(es[..|es| - 1]), es[|es| - 1]) {
        StepKeepsFiling(Exec(es[..|es| - 1]), es[|es| - 1]);
      }
    }
  }

  /** In every run, whatever the network answers and wherever it crashes, a publication happens only when the
      durable state is Submitting, reached from Prepared or Unconfirmed and not canceled; a second publication of
      an intent starts from Unconfirmed; an intent reported canceled before sending was never published. */
  lemma PublishedOnlyAfterDurableMark(es: seq<Event>, k: nat)
    requires k < |Exec(es).sent|
    ensures var w := Exec(es);
            && (w.sent[k].from.Prepared? || w.sent[k].from.Unconfirmed?)
            && w.sent[k].durable == Submitting && !w.sent[k].canceled
            && (forall j | 0 <= j < k && w.sent[j].op == w.sent[k].op :: w.sent[k].from == Unconfirmed)
            && w.sent[k].op in w.intents && w.intents[w.sent[k].op].disposition != CanceledBeforeSend
  {
    EveryRunKeepsInv(es);
  }

  function Count(sent: seq<Sent>, op: OpId): nat
  {
    if sent == [] then 0 else Count(sent[..|sent| - 1], op) + if sent[|sent| - 1].op == op then 1 else 0
  }

  lemma ClosedStaysClosed(w: World, e: Event, op: OpId)
    requires Inv(w) && Enabled(w, e) && op in w.intents && Closed(w.intents[op])
    ensures op in Step(w, e).intents && Closed(Step(w, e).intents[op])
    ensures Count(Step(w, e).sent, op) == Count(w.sent, op)
  {
    if e.Publish? {
      assert Step(w, e).sent[..|w.sent|] == w.sent;
    }
  }

  /** Once an intent is accepted, in conflict or canceled it is never published again. */
  lemma {:induction false} NeverPublishedAgain(es: seq<Event>, i: nat, op: OpId)
    requires i <= |es| && op in Exec(es[..i]).intents && Closed(Exec(es[..i]).intents[op])
    ensures op in Exec(es).intents && Closed(Exec(es).intents[op])
    ensures Count(Exec(es).sent, op) == Count(Exec(es[..i]).sent, op)
  {
    if i == |es| {
      assert es[..i] == es;
    } else {
      var before := es[..|es| - 1];
      assert before[..i] == es[..i];
      NeverPublishedAgain(before, i, op);
      EveryRunKeepsInv(before);
      if Enabled(Exec(before), es[|es| - 1]) {
        ClosedStaysClosed(Exec(before), es[|es| - 1], op);
      }
    }
  }

  lemma FinalVerdictStands(w: World, e: Event, op: OpId)
    requires Enabled(w, e) && op in w.intents
    requires w.intents[op].disposition.Accepted? || w.intents[op].disposition.Conflict?
    ensures op in Step(w, e).intents && Step(w, e).intents[op].disposition == w.intents[op].disposition
  {
  }

  /** An accepted or refused revocation keeps that verdict for good. */
  lemma {:induction false} VerdictStandsInEveryRun(es: seq<Event>, i: nat, op: OpId)
    requires i <= |es| && op in Exec(es[..i]).intents
    requires Exec(es[..i]).intents[op].disposition.Accepted? || Exec(es[..i]).intents[op].disposition.Conflict?
    ensures op in Exec(es).intents && Exec(es).intents[op].disposition == Exec(es[..i]).intents[op].disposition
  {
    if i == |es| {
      assert es[..i] == es;
    } else {
      var before := es[..|es| - 1];
      assert before[..i] == es[..i];
      VerdictStandsInEveryRun(before, i, op);
      if Enabled(Exec(before), es[|es| - 1]) {
        FinalVerdictStands(Exec(before), es[|es| - 1], op);
      }
    }
  }

  // ----- What a request leaves behind -----

  /** A cancel request ends the sending of its intent in every run: nothing of it is published after, and one that was
      canceled before it was ever begun is never published at all. */
  lemma CanceledIsNeverPublishedAgain(es: seq<Event>, i: nat, op: OpId)
    requires i < |es| && es[i] == CancelRequest(op) && Enabled(Exec(es[..i]), es[i])
    ensures op in Exec(es).intents && Exec(es).intents[op].sendCanceled
    ensures Count(Exec(es).sent, op) == Count(Exec(es[..i]).sent, op)
    ensures Exec(es[..i]).intents[op].disposition.Prepared? ==>
              Exec(es).intents[op].disposition == CanceledBeforeSend && Count(Exec(es).sent, op) == 0
  {
    assert es[..i + 1][..i] == es[..i];
    NeverPublishedAgain(es, i + 1, op);
    FlagStands(es, i + 1, op);
    if Exec(es[..i]).intents[op].disposition.Prepared? {
      EveryRunKeepsInv(es[..i]);
      NothingCounted(Exec(es[..i]).sent, op);
      CanceledBeforeSendStands(es, i + 1, op);
    }
  }

  lemma {:induction false} NothingCounted(sent: seq<Sent>, op: OpId)
    requires forall k | 0 <= k < |sent| :: sent[k].op != op
    ensures Count(sent, op) == 0
  {
    if sent != [] { NothingCounted(sent[..|sent| - 1], op); }
  }

  lemma {:induction false} FlagStands(es: seq<Event>, i: nat, op: OpId)
    requires i <= |es| && op in Exec(es[..i]).intents && Exec(es[..i]).intents[op].sendCanceled
    ensures op in Exec(es).intents && Exec(es).intents[op].sendCanceled
  {
    if i == |es| {
      assert es[..i] == es;
    } else {
      assert es[..|es| - 1][..i] == es[..i];
      FlagStands(es[..|es| - 1], i, op);
    }
  }

  lemma {:induction false} CanceledBeforeSendStands(es: seq<Event>, i: nat, op: OpId)
    requires i <= |es| && op in Exec(es[..i]).intents
    requires Exec(es[..i]).intents[op].disposition == CanceledBeforeSend
    ensures op in Exec(es).intents && Exec(es).intents[op].disposition == CanceledBeforeSend
  {
    if i == |es| {
      assert es[..i] == es;
    } else {
      assert es[..|es| - 1][..i] == es[..i];
      CanceledBeforeSendStands(es[..|es| - 1], i, op);
      EveryRunKeepsInv(es[..|es| - 1]);
    }
  }

  /** How a disposition may move in one step, and what moves it. */
  predicate Moved(before: Disposition, after: Disposition, e: Event)
  {
    || after == before
    || (before.Prepared? && ((e.Begin? && after.Submitting?) || (e.CancelRequest? && after.CanceledBeforeSend?)))
    || (before.Unconfirmed? && e.Begin? && after.Submitting?)
    || (before.Submitting? && (e.Restart? || e.CancelRequest?) && after.Unconfirmed?)
    || (before.Submitting? && e == Answer(NoAnswer) && after.Unconfirmed?)
    || ((before.Submitting? || before.Unconfirmed?) && (e.Answer? || e.Status?) && e.outcome.Refused? &&
        after.Conflict?)
    || ((before.Submitting? || before.Unconfirmed?) && (e.Answer? || e.Status?) && e.outcome.Receipted?
        && after == Accepted(e.outcome.receipt))
  }

  /** In every run a disposition moves only as a request, an outcome or a restart allows. */
  lemma DispositionsMoveAsTheyMay(es: seq<Event>, e: Event, op: OpId)
    requires Enabled(Exec(es), e) && op in Exec(es).intents
    ensures var w := Exec(es); var t := Step(w, e);
            && op in t.intents && t.intents[op].intent == w.intents[op].intent
            && Moved(w.intents[op].disposition, t.intents[op].disposition, e)
            && (t.intents[op].sendCanceled <==> w.intents[op].sendCanceled || e == CancelRequest(op))
  {
    EveryRunKeepsInv(es);
  }

  /** A restart leaves no intent submitting, and keeps everything else; what is stored is prepared and not canceled. */
  lemma RestartUnconfirms(es: seq<Event>, op: OpId)
    requires Enabled(Exec(es), Restart) && op in Exec(es).intents
    ensures var w := Exec(es); var t := Step(w, Restart); var d := w.intents[op].disposition;
            && op in t.intents && t.intents[op].disposition == (if d.Submitting? then Unconfirmed else d)
            && t.intents[op].sendCanceled == w.intents[op].sendCanceled && t.sent == w.sent
  {
  }

  lemma StoredIsPrepared(es: seq<Event>, intent: Intent, other: OpId)
    requires Enabled(Exec(es), Store(intent))
    ensures var w := Exec(es); var t := Step(w, Store(intent)); var op := intent.control.op;
            && op in t.intents && t.intents[op] == Coordination(intent, false, Prepared)
            && Enabled(t, Revoke(op)) && Step(t, Revoke(op)).job == Beginning(op)
            && (other != op ==>
                  (other in t.intents <==> other in w.intents) &&
                  (other in w.intents ==> t.intents[other] == w.intents[other]))
  {
  }

  /** In every run the daemon is down exactly from a crash to a restart, and free for a request exactly when no send is
      under way: from its start to its answer, or to where it is given up. */
  lemma JobsEnd(es: seq<Event>, e: Event)
    requires Enabled(Exec(es), e)
    ensures var w, t := Exec(es), Step(Exec(es), e);
            && (t.job.Down? <==> e.Crash? || (w.job.Down? && !e.Restart?))
            && (t.job.Idle? <==>
                  || e.Answer? || e.GiveUp? || e.Restart?
                  || (w.job.Idle? && !e.Crash? && !(e.Revoke? && Sendable(w.intents[e.op]))))
  {
    EveryRunKeepsInv(es);
  }

  lemma {:induction false} KnownStands(es: seq<Event>, i: nat, op: OpId)
    requires i <= |es| && op in Exec(es[..i]).intents
    ensures op in Exec(es).intents
  {
    if i == |es| {
      assert es[..i] == es;
    } else {
      assert es[..|es| - 1][..i] == es[..i];
      KnownStands(es[..|es| - 1], i, op);
    }
  }

  /** What an outcome makes of an intent that is under way. */
  predicate Told(before: Coordination, after: Coordination, outcome: Outcome, published: bool)
  {
    var expected := ExpectedReceipt(before.intent.control);
    && (outcome.Refused? ==> after.disposition == Conflict)
    && (outcome == Receipted(expected) ==> after.disposition == Accepted(expected))
    && (outcome.Receipted? && outcome.receipt != expected ==> after == before)
    && (outcome.NoAnswer? ==> after.disposition == if published && before.disposition.Submitting? then Unconfirmed
                                                   else before.disposition)
  }

  lemma RecordTells(intents: Intents, op: OpId, outcome: Outcome, published: bool)
    requires op in intents && (intents[op].disposition.Submitting? || intents[op].disposition.Unconfirmed?)
    ensures op in Record(intents, op, outcome, published)
    ensures Told(intents[op], Record(intents, op, outcome, published)[op], outcome, published)
  {
  }

  /** The prefix of a run after event `i`. */
  lemma After(es: seq<Event>, i: nat)
    requires i < |es| && Enabled(Exec(es[..i]), es[i])
    ensures Exec(es[..i + 1]) == Step(Exec(es[..i]), es[i])
  {
    assert es[..i + 1][..i] == es[..i];
  }

  lemma VerdictOrKnown(es: seq<Event>, i: nat, op: OpId)
    requires i <= |es| && op in Exec(es[..i]).intents
    ensures op in Exec(es).intents
    ensures var d := Exec(es[..i]).intents[op].disposition;
            d.Accepted? || d.Conflict? ==> Exec(es).intents[op].disposition == d
  {
    KnownStands(es, i, op);
    var d := Exec(es[..i]).intents[op].disposition;
    if d.Accepted? || d.Conflict? { VerdictStandsInEveryRun(es, i, op); }
  }

  /** What the network said of a publication stands: a refusal is a conflict and the expected receipt is accepted, both
      for good; without an answer the intent is unconfirmed. */
  lemma OutcomeIsRecorded(es: seq<Event>, i: nat, op: OpId, outcome: Outcome)
    requires i < |es| && es[i] == Answer(outcome) && Exec(es[..i]).job == Settling(op)
    ensures var w, t := Exec(es[..i]), Exec(es[..i + 1]);
            && op in w.intents && op in t.intents && op in Exec(es).intents
            && Told(w.intents[op], t.intents[op], outcome, true)
            && (t.intents[op].disposition.Accepted? || t.intents[op].disposition.Conflict? ==>
                  Exec(es).intents[op].disposition == t.intents[op].disposition)
  {
    EveryRunKeepsInv(es[..i]);
    After(es, i);
    RecordTells(Exec(es[..i]).intents, op, outcome, true);
    VerdictOrKnown(es, i + 1, op);
  }

  /** So does what a status request learns of an intent that is under way. */
  lemma StatusIsRecorded(es: seq<Event>, i: nat, op: OpId, outcome: Outcome)
    requires i < |es| && es[i] == Status(op, outcome) && Enabled(Exec(es[..i]), es[i])
    requires Exec(es[..i]).intents[op].disposition.Submitting? || Exec(es[..i]).intents[op].disposition.Unconfirmed?
    ensures var w, t := Exec(es[..i]), Exec(es[..i + 1]);
            && op in t.intents && op in Exec(es).intents
            && Told(w.intents[op], t.intents[op], outcome, false)
            && (t.intents[op].disposition.Accepted? || t.intents[op].disposition.Conflict? ==>
                  Exec(es).intents[op].disposition == t.intents[op].disposition)
  {
    After(es, i);
    RecordTells(Exec(es[..i]).intents, op, outcome, false);
    VerdictOrKnown(es, i + 1, op);
  }

  /** In every run a request is sent on exactly when its intent is prepared or unconfirmed and not canceled. */
  lemma SentOnExactlyWhenSendable(es: seq<Event>, op: OpId)
    requires Enabled(Exec(es), Revoke(op))
    ensures var w := Exec(es); var d := w.intents[op].disposition; var t := Step(w, Revoke(op));
            && (t.job == Beginning(op) <==> !w.intents[op].sendCanceled && (d.Prepared? || d.Unconfirmed?))
            && (t.job == Beginning(op) ==>
                  && Enabled(t, Begin) && Step(t, Begin).job == Publishing(op, d)
                  && Count(Step(Step(t, Begin), Publish).sent, op) == Count(w.sent, op) + 1)
  {
    var w := Exec(es);
    var t := Step(w, Revoke(op));
    if t.job == Beginning(op) {
      var u := Step(Step(t, Begin), Publish);
      assert u.sent[..|w.sent|] == w.sent;
    }
  }
}
