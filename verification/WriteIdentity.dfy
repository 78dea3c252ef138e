/** Identities of desktop writes (`LocalWorkspaceGateway` in apps/desktop/src/workspace.ts): an identical request keeps
    its operation id until a usable acknowledgement arrives, so that a lost answer cannot create a second record.
    Calls overlap at every `await`, and preparing, sending, acknowledging and cleaning up may each fail. The daemon
    applies an operation id at most once and acknowledges only what it applied. Draft objects, request bodies and
    ids are opaque; the JSON key is the value it encodes. */
module WriteIdentity {
  import opened Options
  import opened Sets

  type Id = int
  type Body = int
  type CallId = int

  datatype Write =
    | MemoryCreate(body: Body)
    | MemoryUpdate(memoryId: Id, body: Body)
    | MemoryArchive(memoryId: Id, body: Body)
    | TaskUpsert(upserted: Option<Id>, body: Body)
    | TaskComplete(taskId: Id, body: Body)
    | TaskTransition(taskId: Id, body: Body)
    | CandidateReview(candidateId: Id, accepted: bool, body: Body)

  datatype Key = Key(draft: nat, write: Write)
  datatype Pending = Pending(op: Id, creates: bool)

  /** What an acknowledgement carries: a memory or a task with its revision, or a candidate with its state. */
  datatype Record =
    | Memory(id: Id, revision: Id)
    | Task(id: Id, revision: Id)
    | Candidate(id: Id, state: Decision)
  datatype Decision = Undecided | Accepted | Rejected

  predicate CreatesRecord(w: Write) { w.MemoryCreate? || (w.TaskUpsert? && w.upserted.None?) }

  /** The record a write is about; a creation's record bears the operation id. */
  function ExpectedId(w: Write, op: Id): Id
  {
    match w
    case MemoryCreate(_) => op
    case MemoryUpdate(id, _) => id
    case MemoryArchive(id, _) => id
    case TaskUpsert(id, _) => if id.Some? then id.value else op
    case TaskComplete(id, _) => id
    case TaskTransition(id, _) => id
    case CandidateReview(id, _, _) => id
  }

  predicate RightKind(w: Write, r: Record)
  {
    match w
    case MemoryCreate(_) => r.Memory?
    case MemoryUpdate(_, _) => r.Memory?
    case MemoryArchive(_, _) => r.Memory?
    case CandidateReview(_, _, _) => r.Candidate?
    case _ => r.Task?
  }

  /** `writeRecord` accepts an answer of these records. */
  predicate Acknowledges(w: Write, op: Id, records: seq<Record>)
  {
    && |records| == 1 && RightKind(w, records[0]) && records[0].id == ExpectedId(w, op)
    && (match records[0]
        case Candidate(_, state) => w.CandidateReview? && state == (if w.accepted then Accepted else Rejected)
        case Memory(_, revision) => revision == op
        case Task(_, revision) => revision == op)
  }

  /** The record the daemon answers with after applying a write: the written record at the revision that bears the
      operation id, or the reviewed candidate as decided. */
  function Written(w: Write, op: Id): Record
  {
    match w
    case MemoryCreate(_) => Memory(op, op)
    case MemoryUpdate(id, _) => Memory(id, op)
    case MemoryArchive(id, _) => Memory(id, op)
    case TaskUpsert(None, _) => Task(op, op)
    case TaskUpsert(Some(id), _) => Task(id, op)
    case TaskComplete(id, _) => Task(id, op)
    case TaskTransition(id, _) => Task(id, op)
    case CandidateReview(id, true, _) => Candidate(id, Accepted)
    case CandidateReview(id, false, _) => Candidate(id, Rejected)
  }

  /** An answer is an acknowledgement exactly when it is the written record and nothing else; and the writes that create
      a record are exactly those whose record always bears the operation id. */
  lemma AcknowledgedByExactlyOneAnswer(w: Write, op: Id, records: seq<Record>)
    ensures Acknowledges(w, op, records) <==> records == [Written(w, op)]
    ensures CreatesRecord(w) <==> forall o :: Written(w, o).id == o
    ensures ExpectedId(w, op) == Written(w, op).id
  {
    if |records| == 1 { assert records == [records[0]]; }
    if !CreatesRecord(w) {
      assert Written(w, Written(w, op).id + 1).id != Written(w, op).id + 1;
    }
  }

  // ---- the machine ----------------------------------------------------------

  datatype Phase = Preparing | Sending | Cleaning

  /** A call in progress: `mutation` or `retryWrite`. */
  datatype Call = Call(op: Id, write: Write, phase: Phase)

  datatype State = State(
    pending: map<Key, Pending>,
    calls: map<CallId, Call>,
    copies: map<Id, Write>,     // the daemon's recovery copies
    applied: map<Id, Write>,    // what the daemon applied under each operation id
    records: set<Id>,           // records that exist
    owner: map<Id, Key>,        // history: which key each assigned id went to
    retired: set<Id>,           // history: assigned ids no longer live
    discarded: set<Id>,         // history: ids forgotten on explicit request
    foreign: map<Id, Write>)    // copies left by earlier sessions

  datatype Event =
    | Begin(c: CallId, key: Key, offered: Id)
    | Prepared(c: CallId, stored: bool, ok: bool)
    | Retry(c: CallId, op: Id)
    | Apply(c: CallId)
    | Acked(c: CallId, records: seq<Record>)
    | Cleaned(c: CallId)
    | Fail(c: CallId, forgotten: bool)
    | Forget(op: Id)
    | OtherRecord(id: Id)

  /** A new gateway over a daemon that may hold records and recovery copies from before. */
  function Start(copies: map<Id, Write>, records: set<Id>): State
  {
    State(map[], map[], copies, map[], records, map[], {}, {}, copies)
  }

  /** `retirePending`. */
  predicate Retires(p: Pending, op: Id, record: Option<Id>)
  {
    p.op == op || (p.creates && Some(p.op) == record)
  }

  function RetirePending(pending: map<Key, Pending>, op: Id, record: Option<Id>): map<Key, Pending>
  {
    map k | k in pending && !Retires(pending[k], op, record) :: pending[k]
  }

  function RetiredBy(pending: map<Key, Pending>, op: Id, record: Option<Id>): set<Id>
  {
    set k | k in pending && Retires(pending[k], op, record) :: pending[k].op
  }

  function Retire(s: State, op: Id, record: Option<Id>): State
  {
    s.(pending := RetirePending(s.pending, op, record), retired := s.retired + RetiredBy(s.pending, op, record))
  }

  function Identity(s: State, key: Key, offered: Id): Id
  {
    if key in s.pending then s.pending[key].op else offered
  }

  predicate Enabled(s: State, e: Event)
  {
    match e
    case Begin(c, key, offered) =>
      c !in s.calls && offered !in s.owner && offered !in s.records && offered !in s.foreign
    case Prepared(c, _, _) => c in s.calls && s.calls[c].phase.Preparing?
    case Retry(c, op) => c !in s.calls && op in s.copies
    case Apply(c) => c in s.calls && s.calls[c].phase.Sending? && s.calls[c].op !in s.applied &&
      (CreatesRecord(s.calls[c].write) || ExpectedId(s.calls[c].write, s.calls[c].op) in s.records)
    case Acked(c, records) => c in s.calls && s.calls[c].phase.Sending? && s.calls[c].op in s.applied &&
      Acknowledges(s.calls[c].write, s.calls[c].op, records)
    case Cleaned(c) => c in s.calls && s.calls[c].phase.Cleaning?
    case Fail(c, _) => c in s.calls
    case Forget(_) => true
    case OtherRecord(id) => id !in s.owner
  }

  function Step(s: State, e: Event): State
    requires Enabled(s, e)
  {
    match e
    case Begin(c, key, offered) =>
      var op := Identity(s, key, offered);
      s.(pending := s.pending[key := Pending(op, CreatesRecord(key.write))],
         calls := s.calls[c := Call(op, key.write, Preparing)],
         owner := if key in s.pending then s.owner else s.owner[offered := key])
    case Prepared(c, stored, ok) =>
      var call := s.calls[c];
      s.(copies := if (stored || ok) && call.op !in s.copies then s.copies[call.op := call.write] else s.copies,
         calls := if ok then s.calls[c := call.(phase := Sending)] else s.calls - {c})
    case Retry(c, op) => s.(calls := s.calls[c := Call(op, s.copies[op], Sending)])
    case Apply(c) =>
      var call := s.calls[c];
      s.(applied := s.applied[call.op := call.write], records := s.records + {ExpectedId(call.write, call.op)})
    case Acked(c, records) =>
      var call := s.calls[c];
      Retire(s, call.op, Some(records[0].id)).(calls := s.calls[c := call.(phase := Cleaning)])
    case Cleaned(c) =>
      var op := s.calls[c].op;
      Retire(s, op, None).(calls := s.calls - {c}, copies := s.copies - {op})
    case Fail(c, forgotten) =>
      s.(calls := s.calls - {c},
         copies := if forgotten && s.calls[c].phase.Cleaning? then s.copies - {s.calls[c].op} else s.copies)
    case Forget(op) =>
      Retire(s, op, None).(copies := s.copies - {op}, discarded := s.discarded + {op})
    case OtherRecord(id) => s.(records := s.records + {id})
  }

  function Exec(s: State, es: seq<Event>): State
  {
    if es == [] then s
    else
      var t := Exec(s, es[..|es| - 1]);
      var e := es[|es| - 1];
      if Enabled(t, e) then Step(t, e) else t
  }

  // ---- what every run keeps -------------------------------------------------

  /** A live id was assigned to its key and has not been retired, and an assigned id that is not retired is live. */
  predicate Live(pending: map<Key, Pending>, owner: map<Id, Key>, retired: set<Id>)
  {
    && (forall k | k in pending :: pending[k].op in owner && owner[pending[k].op] == k &&
          pending[k].op !in retired && pending[k].creates == CreatesRecord(k.write))
    && (forall o | o in owner && o !in retired :: owner[o] in pending && pending[owner[o]].op == o)
    && retired <= owner.Keys
  }

  predicate Belongs(op: Id, w: Write, owner: map<Id, Key>, foreign: map<Id, Write>)
  {
    if op in owner then w == owner[op].write else op in foreign && w == foreign[op]
  }

  /** Every id in use was assigned here, for this very write, or comes from an earlier session. */
  predicate Traced(s: State)
  {
    && s.owner.Keys !! s.foreign.Keys
    && (forall c | c in s.calls :: Belongs(s.calls[c].op, s.calls[c].write, s.owner, s.foreign))
    && (forall o | o in s.copies :: Belongs(o, s.copies[o], s.owner, s.foreign))
    && (forall o | o in s.applied :: Belongs(o, s.applied[o], s.owner, s.foreign))
  }

  /** What was applied names a record that exists, and an assigned id is a record only once it was applied. */
  predicate Recorded(applied: map<Id, Write>, records: set<Id>, owner: map<Id, Key>)
  {
    && (forall o | o in applied :: ExpectedId(applied[o], o) in records)
    && (forall o | o in owner && o in records :: o in applied)
  }

  predicate Settled(s: State)
  {
    && (forall c | c in s.calls && s.calls[c].phase.Cleaning? :: s.calls[c].op in s.applied)
    && (forall o | o in s.retired :: o in s.applied || o in s.discarded)
  }

  predicate Inv(s: State)
  {
    Live(s.pending, s.owner, s.retired) && Traced(s) && Recorded(s.applied, s.records, s.owner) && Settled(s)
  }

  lemma RetireKeepsLive(pending: map<Key, Pending>, owner: map<Id, Key>, retired: set<Id>, op: Id, record: Option<Id>)
    requires Live(pending, owner, retired)
    ensures Live(RetirePending(pending, op, record), owner, retired + RetiredBy(pending, op, record))
  {
    var gone := RetiredBy(pending, op, record);
    forall o | o in owner && o !in retired + gone ensures owner[o] in RetirePending(pending, op, record) {}
  }

  lemma StepKeepsLive(s: State, e: Event)
    requires Live(s.pending, s.owner, s.retired) && Enabled(s, e)
    ensures var t := Step(s, e); Live(t.pending, t.owner, t.retired)
  {
    match e
    case Acked(c, records) => RetireKeepsLive(s.pending, s.owner, s.retired, s.calls[c].op, Some(records[0].id));
    case Cleaned(c) => RetireKeepsLive(s.pending, s.owner, s.retired, s.calls[c].op, None);
    case Forget(op) => RetireKeepsLive(s.pending, s.owner, s.retired, op, None);
    case _ =>
  }

  lemma StepKeepsTraced(s: State, e: Event)
    requires Live(s.pending, s.owner, s.retired) && Traced(s) && Enabled(s, e)
    ensures Traced(Step(s, e))
  {
  }

  lemma StepKeepsRecorded(s: State, e: Event)
    requires Live(s.pending, s.owner, s.retired) && Traced(s) && Recorded(s.applied, s.records, s.owner) &&
             Enabled(s, e)
    ensures var t := Step(s, e); Recorded(t.applied, t.records, t.owner)
  {
  }

  /** An acknowledged write names a record that exists; if that is a live creation's id, the creation was applied. */
  lemma RetiresOnlyApplied(s: State, c: CallId, records: seq<Record>, k: Key)
    requires Inv(s) && Enabled(s, Acked(c, records))
    requires k in s.pending && Retires(s.pending[k], s.calls[c].op, Some(records[0].id))
    ensures s.pending[k].op in s.applied
  {
    var call := s.calls[c];
    assert Belongs(call.op, s.applied[call.op], s.owner, s.foreign);
    assert s.applied[call.op] == call.write;
    assert records[0].id in s.records;
  }

  lemma StepKeepsSettled(s: State, e: Event)
    requires Inv(s) && Enabled(s, e)
    ensures Settled(Step(s, e))
  {
    match e
    case Acked(c, records) =>
      forall o | o in RetiredBy(s.pending, s.calls[c].op, Some(records[0].id)) ensures o in s.applied
      {
        var k :| k in s.pending && Retires(s.pending[k], s.calls[c].op, Some(records[0].id)) && s.pending[k].op == o;
        RetiresOnlyApplied(s, c, records, k);
      }
    case _ =>
  }

  lemma {:induction false} EveryRunKeepsInv(copies: map<Id, Write>, records: set<Id>, es: seq<Event>)
    ensures Inv(Exec(Start(copies, records), es))
  {
    if es != [] {
      var s := Exec(Start(copies, records), es[..|es| - 1]);
      var e := es[|es| - 1];
      EveryRunKeepsInv(copies, records, es[..|es| - 1]);
      if Enabled(s, e) {
        StepKeepsLive(s, e);
        StepKeepsTraced(s, e);
        StepKeepsRecorded(s, e);
        StepKeepsSettled(s, e);
      }
    }
  }

  // ---- what it means --------------------------------------------------------

  /** In every run: a key has at most one live id, no two keys share an id, and each id ever assigned is either retired
      or the live id of the one key it was assigned to. */
  lemma OneLiveIdPerKey(copies: map<Id, Write>, records: set<Id>, es: seq<Event>)
    ensures var s := Exec(Start(copies, records), es);
      && (forall o, p | o in s.owner && p in s.owner && o !in s.retired && p !in s.retired ::
            s.owner[o] == s.owner[p] ==> o == p)
      && (forall j, k | j in s.pending && k in s.pending && s.pending[j].op == s.pending[k].op :: j == k)
      && (forall o | o in s.owner :: o !in s.retired <==> s.owner[o] in s.pending && s.pending[s.owner[o]].op == o)
  {
    EveryRunKeepsInv(copies, records, es);
  }

  /** A call that started under an id its key no longer uses cannot retire the newer one: neither its
      acknowledgement nor its cleanup, however late. */
  lemma LateAnswerKeepsNewerId(copies: map<Id, Write>, records: set<Id>, es: seq<Event>, c: CallId, e: Event)
    requires var s := Exec(Start(copies, records), es);
      Enabled(s, e) && ((e.Acked? && e.c == c) || e == Cleaned(c)) && s.calls[c].op in s.owner
    ensures var s := Exec(Start(copies, records), es); var k := s.owner[s.calls[c].op];
      k in s.pending && s.pending[k].op != s.calls[c].op ==>
        k in Step(s, e).pending && Step(s, e).pending[k] == s.pending[k]
  {
    EveryRunKeepsInv(copies, records, es);
    var s := Exec(Start(copies, records), es);
    assert Belongs(s.calls[c].op, s.calls[c].write, s.owner, s.foreign);
  }

  /** An answer retires an entry exactly when it acknowledges that id, or the record that id created; and whatever is
      retired in any run was applied by the daemon, unless it was discarded on request. */
  lemma RetiredExactlyWhenObserved(copies: map<Id, Write>, records: set<Id>, es: seq<Event>, c: CallId,
                                   answer: seq<Record>)
    requires Enabled(Exec(Start(copies, records), es), Acked(c, answer))
    ensures var s := Exec(Start(copies, records), es); var t := Step(s, Acked(c, answer)); var call := s.calls[c];
      && (forall k | k in s.pending :: k !in t.pending <==>
            s.pending[k].op == call.op ||
              (CreatesRecord(k.write) && s.pending[k].op == ExpectedId(call.write, call.op)))
      && (forall k | k in s.pending && k !in t.pending :: s.pending[k].op in s.applied)
      && (forall k | k in t.pending :: k in s.pending && t.pending[k] == s.pending[k])
      && (forall o | o in s.retired :: o in s.applied || o in s.discarded)
  {
    EveryRunKeepsInv(copies, records, es);
    var s := Exec(Start(copies, records), es);
    forall k | k in s.pending && k !in Step(s, Acked(c, answer)).pending ensures s.pending[k].op in s.applied
    {
      RetiresOnlyApplied(s, c, answer, k);
    }
  }

  // ---- recovery copies ------------------------------------------------------

  /** A write being sent can be recovered until its id is retired, and one being cleaned up has been retired. */
  predicate Recoverable(s: State)
  {
    forall c | c in s.calls && s.calls[c].op in s.owner ::
      && (s.calls[c].phase.Sending? ==> s.calls[c].op in s.copies || s.calls[c].op in s.retired)
      && (s.calls[c].phase.Cleaning? ==> s.calls[c].op in s.retired)
  }

  lemma StepKeepsRecoverable(s: State, e: Event)
    requires Inv(s) && Recoverable(s) && Enabled(s, e)
    ensures Recoverable(Step(s, e))
  {
    match e
    case Begin(c, key, offered) =>
      forall d | d in s.calls ensures s.calls[d].op != offered
      {
        assert Belongs(s.calls[d].op, s.calls[d].write, s.owner, s.foreign);
      }
    case _ =>
  }

  lemma {:induction false} EveryRunKeepsRecoverable(copies: map<Id, Write>, records: set<Id>, es: seq<Event>)
    ensures Recoverable(Exec(Start(copies, records), es))
  {
    if es != [] {
      var s := Exec(Start(copies, records), es[..|es| - 1]);
      EveryRunKeepsInv(copies, records, es[..|es| - 1]);
      EveryRunKeepsRecoverable(copies, records, es[..|es| - 1]);
      if Enabled(s, es[|es| - 1]) { StepKeepsRecoverable(s, es[|es| - 1]); }
    }
  }

  /** In every run a write that is out, with no answer accepted and not discarded, can be retried: the daemon holds a
      copy of that very write under its id. And a copy of an assigned id goes only once the id is retired, that is,
      once the write was applied or discarded. */
  lemma SentWriteCanBeRetried(copies: map<Id, Write>, records: set<Id>, es: seq<Event>, c: CallId)
    ensures var s := Exec(Start(copies, records), es);
      c in s.calls && s.calls[c].phase.Sending? && s.calls[c].op in s.owner && s.calls[c].op !in s.retired ==>
        s.calls[c].op in s.copies && s.copies[s.calls[c].op] == s.calls[c].write
  {
    EveryRunKeepsInv(copies, records, es);
    EveryRunKeepsRecoverable(copies, records, es);
    var s := Exec(Start(copies, records), es);
    if c in s.calls && s.calls[c].op in s.copies {
      assert Belongs(s.calls[c].op, s.calls[c].write, s.owner, s.foreign);
      assert Belongs(s.calls[c].op, s.copies[s.calls[c].op], s.owner, s.foreign);
    }
  }

  lemma CopyGoesOnlyOnceRetired(copies: map<Id, Write>, records: set<Id>, es: seq<Event>, e: Event, op: Id)
    requires var s := Exec(Start(copies, records), es);
      Enabled(s, e) && op in s.copies && op in s.owner && op !in Step(s, e).copies
    ensures var t := Step(Exec(Start(copies, records), es), e);
      op in t.retired && (op in t.applied || op in t.discarded)
  {
    var s := Exec(Start(copies, records), es);
    EveryRunKeepsInv(copies, records, es);
    EveryRunKeepsRecoverable(copies, records, es);
    StepKeepsSettled(s, e);
  }

  /** Once cleaned up, or discarded on request, an id is neither live nor recoverable, and nothing else changes. */
  lemma CleanedUpForGood(copies: map<Id, Write>, records: set<Id>, es: seq<Event>, e: Event)
    requires Enabled(Exec(Start(copies, records), es), e) && (e.Cleaned? || e.Forget?)
    ensures var s := Exec(Start(copies, records), es); var t := Step(s, e);
      var op := if e.Forget? then e.op else s.calls[e.c].op;
      && (forall o :: o in t.copies <==> o in s.copies && o != op)
      && (forall k :: k in t.pending <==> k in s.pending && s.pending[k].op != op)
      && (forall k | k in t.pending :: t.pending[k] == s.pending[k])
      && t.applied == s.applied && t.records == s.records && t.owner == s.owner
  {
    EveryRunKeepsInv(copies, records, es);
  }

  /** A preparation leaves the copy it may have stored, under the id of its call, whether or not it was answered; it
      sends the write exactly when it was. */
  lemma PreparedIsSentExactlyWhenAnswered(s: State, c: CallId, stored: bool, ok: bool)
    requires Inv(s) && Enabled(s, Prepared(c, stored, ok))
    ensures var t := Step(s, Prepared(c, stored, ok)); var call := s.calls[c];
      && (call.op in t.copies <==> call.op in s.copies || stored || ok)
      && (call.op in t.copies ==> t.copies[call.op] == call.write)
      && (c in t.calls <==> ok) && (ok ==> t.calls[c] == Call(call.op, call.write, Sending))
      && t.pending == s.pending && t.applied == s.applied
  {
    var call := s.calls[c];
    assert Belongs(call.op, call.write, s.owner, s.foreign);
    if call.op in s.copies { assert Belongs(call.op, s.copies[call.op], s.owner, s.foreign); }
  }

  // ---- what becomes of a call -------------------------------------------------

  /** Every call goes from preparing to sending to cleaning up, or ends, and only by its own events. */
  lemma CallsMoveInOrder(copies: map<Id, Write>, records: set<Id>, es: seq<Event>, e: Event, c: CallId)
    requires Enabled(Exec(Start(copies, records), es), e)
    ensures var s := Exec(Start(copies, records), es); var t := Step(s, e);
      if c !in s.calls then
        && (c in t.calls <==> (e.Begin? || e.Retry?) && e.c == c)
        && (c in t.calls && e.Begin? ==> t.calls[c] == Call(t.pending[e.key].op, e.key.write, Preparing))
        && (c in t.calls && e.Retry? ==> t.calls[c] == Call(e.op, s.copies[e.op], Sending))
      else
        && (c in t.calls <==>
              !((e.Prepared? && e.c == c && !e.ok) || (e.Cleaned? && e.c == c) || (e.Fail? && e.c == c)))
        && (c in t.calls ==>
              && t.calls[c].op == s.calls[c].op && t.calls[c].write == s.calls[c].write
              && t.calls[c].phase == if e.Prepared? && e.c == c then Sending
                                     else if e.Acked? && e.c == c then Cleaning
                                     else s.calls[c].phase)
  {
  }

  /** Records appear as the daemon applies writes, or from elsewhere, and never go. */
  lemma RecordsAppearExactlyWhen(s: State, e: Event, id: Id)
    requires Enabled(s, e)
    ensures id in Step(s, e).records <==>
            || id in s.records || e == OtherRecord(id)
            || (e.Apply? && Written(s.calls[e.c].write, s.calls[e.c].op).id == id)
  {
    if e.Apply? { AcknowledgedByExactlyOneAnswer(s.calls[e.c].write, s.calls[e.c].op, []); }
  }

  /** A call that fails leaves its id and what was applied as they were, and its recovery copy too, unless its write was
      acknowledged and the request to forget the copy had gone through. */
  lemma FailureLosesNothing(copies: map<Id, Write>, records: set<Id>, es: seq<Event>, c: CallId, forgotten: bool)
    requires Enabled(Exec(Start(copies, records), es), Fail(c, forgotten))
    ensures var s := Exec(Start(copies, records), es); var t := Step(s, Fail(c, forgotten));
      && t.pending == s.pending && t.applied == s.applied && t.records == s.records
      && (forall o :: o in t.copies <==>
            o in s.copies && !(o == s.calls[c].op && forgotten && s.calls[c].phase.Cleaning?))
      && (s.calls[c].phase.Cleaning? && s.calls[c].op in s.owner ==> s.calls[c].op in s.retired)
  {
    EveryRunKeepsRecoverable(copies, records, es);
  }

  /** A write that is sent and answered as it should be is done with: applied once, its id retired, its copy gone. */
  lemma AnsweredWriteIsDone(copies: map<Id, Write>, records: set<Id>, es: seq<Event>, c: CallId)
    requires var s := Exec(Start(copies, records), es);
      c in s.calls && s.calls[c].phase.Sending? && Enabled(s, Apply(c))
    ensures var s := Exec(Start(copies, records), es); var call := s.calls[c];
      var answer := [Written(call.write, call.op)];
      && Enabled(Step(s, Apply(c)), Acked(c, answer))
      && Enabled(Step(Step(s, Apply(c)), Acked(c, answer)), Cleaned(c))
      && var t := Step(Step(Step(s, Apply(c)), Acked(c, answer)), Cleaned(c));
         && t.applied == s.applied[call.op := call.write] && answer[0].id in t.records
         && call.op !in t.copies && c !in t.calls
         && (forall k | k in t.pending :: t.pending[k].op != call.op)
  {
    var s := Exec(Start(copies, records), es);
    var call := s.calls[c];
    AcknowledgedByExactlyOneAnswer(call.write, call.op, [Written(call.write, call.op)]);
  }

  function AssignedTo(s: State, k: Key): set<Id> { set o | o in s.owner && s.owner[o] == k }

  /** The records the daemon created for a key. */
  function Created(s: State, k: Key): set<Id>
  {
    set o | o in AssignedTo(s, k) && o in s.applied && CreatesRecord(s.applied[o])
  }

  function RetiredOf(s: State, k: Key): set<Id> { set o | o in AssignedTo(s, k) && o in s.retired }

  /** However calls overlap and fail, the records created for a key are at most its retirements, plus one while an id
      of the key is live. */
  lemma CreatedAtMostOnePerRetirement(copies: map<Id, Write>, records: set<Id>, es: seq<Event>, k: Key)
    ensures var s := Exec(Start(copies, records), es);
      |Created(s, k)| <= |RetiredOf(s, k)| + (if k in s.pending then 1 else 0)
  {
    EveryRunKeepsInv(copies, records, es);
    var s := Exec(Start(copies, records), es);
    var live := if k in s.pending then {s.pending[k].op} else {};
    forall o | o in Created(s, k) ensures o in RetiredOf(s, k) + live {}
    SubsetSize(Created(s, k), RetiredOf(s, k) + live);
  }

  // ---- the gateway ------------------------------------------------------------

  type Draft = int

  class Gateway {
    var pendingOperations: map<Key, Pending>
    var draftAttempts: map<Draft, nat>
    var nextDraftAttempt: nat

    /** Draft numbers are given out once; 0 is kept for requests without a draft. */
    ghost predicate Valid()
      reads this
    {
      && 1 <= nextDraftAttempt
      && (forall d | d in draftAttempts :: 1 <= draftAttempts[d] < nextDraftAttempt)
      && (forall d, e | d in draftAttempts && e in draftAttempts && draftAttempts[d] == draftAttempts[e] :: d == e)
    }

    constructor ()
      ensures Valid() && pendingOperations == map[] && draftAttempts == map[]
    {
      pendingOperations, draftAttempts, nextDraftAttempt := map[], map[], 1;
    }

    /** The part of `mutation` before its first `await`: the same draft and request get the same key, a key in use keeps
        its id, and any other request takes the id it came with. */
    method Identify(attempt: Option<Draft>, write: Write, offered: Id) returns (key: Key, op: Id)
      requires Valid()
      modifies this
      ensures Valid()
      ensures key.write == write
      ensures op == if key in old(pendingOperations) then old(pendingOperations)[key].op else offered
      ensures pendingOperations == old(pendingOperations)[key := Pending(op, CreatesRecord(write))]
      ensures attempt.None? ==> key.draft == 0 && draftAttempts == old(draftAttempts)
      ensures attempt.Some? ==> draftAttempts == old(draftAttempts)[attempt.value := key.draft]
      ensures attempt.Some? && attempt.value in old(draftAttempts) ==> key.draft == old(draftAttempts)[attempt.value]
    {
      var draft := 0;
      if attempt.Some? {
        if attempt.value in draftAttempts {
          draft := draftAttempts[attempt.value];
        } else {
          draft := nextDraftAttempt;
          nextDraftAttempt := nextDraftAttempt + 1;
        }
        draftAttempts := draftAttempts[attempt.value := draft];
      }
      key := Key(draft, write);
      op := if key in pendingOperations then pendingOperations[key].op else offered;
      pendingOperations := pendingOperations[key := Pending(op, CreatesRecord(write))];
    }

    /** `retirePending`, over the entries in some order. */
    method RetireEntries(keys: seq<Key>, op: Id, record: Option<Id>)
      requires forall k :: k in keys <==> k in pendingOperations
      modifies this`pendingOperations
      ensures pendingOperations == RetirePending(old(pendingOperations), op, record)
    {
      for i := 0 to |keys|
        invariant pendingOperations.Keys <= old(pendingOperations).Keys
        invariant forall k | k in pendingOperations :: pendingOperations[k] == old(pendingOperations)[k]
        invariant forall k | k in old(pendingOperations) ::
          k !in pendingOperations <==> k in keys[..i] && Retires(old(pendingOperations)[k], op, record)
      {
        if keys[i] in pendingOperations && Retires(pendingOperations[keys[i]], op, record) {
          pendingOperations := pendingOperations - {keys[i]};
        }
      }
      assert keys[..|keys|] == keys;
    }
  }
}
