/** Attempts to apply or roll back a harness setup (crates/contextd/src/harness_execution.rs): a short history of
    shared attempts, newest first, and a ticket that travels with the queued work and closes its attempt when it is
    dropped. A shared `Arc<Mutex<Attempt>>` is a reference number into the map of attempts. */
module Execution {
  import opened Options

  type Ref = int
  datatype Action = Apply | Rollback
  datatype Key = Key(plan: int, action: Action)
  datatype Phase = Queued | Running | Finished
  datatype Attempt = Attempt(key: Key, phase: Phase, error: bool, accepted: bool)

  /** Where a live ticket is: not yet handed over, in the worker's queue, begun, or reported finished. */
  datatype Ticket = Reserved | Waiting | Begun | Reported

  const HISTORY_LIMIT: nat := 16

  datatype State = State(
    entries: seq<Ref>,            // newest first
    attempts: map<Ref, Attempt>,
    tickets: map<Ref, Ticket>,    // tickets not yet dropped
    marking: set<Ref>,            // submitted, `accepted` not yet set
    removing: set<Ref>,           // rejected, entry not yet removed
    started: seq<Ref>,            // history: attempts in the order they were started
    removed: set<Ref>)            // history: rejected attempts whose entry was removed

  datatype Event =
    | Start(key: Key, ref: Ref)
    | Submit(ref: Ref, ok: bool)
    | Mark(ref: Ref)
    | Remove(ref: Ref)
    | Begin(ref: Ref)
    | Finish(ref: Ref, ok: bool)
    | Drop(ref: Ref)

  datatype Reply = Started | Existing(attempt: Attempt) | Busy

  const Initial: State := State([], map[], map[], {}, {}, [], {})

  predicate Unfinished(a: Attempt) { a.phase.Queued? || a.phase.Running? }

  /** The first entry still queued or running. */
  function FirstUnfinished(entries: seq<Ref>, attempts: map<Ref, Attempt>): (r: Option<Ref>)
    requires forall i | 0 <= i < |entries| :: entries[i] in attempts
    ensures r.Some? ==> r.value in entries && r.value in attempts && Unfinished(attempts[r.value])
    ensures r.None? ==> forall i | 0 <= i < |entries| :: !Unfinished(attempts[entries[i]])
  {
    if entries == [] then None
    else if Unfinished(attempts[entries[0]]) then Some(entries[0])
    else FirstUnfinished(entries[1..], attempts)
  }

  /** The entries of other keys, in order. */
  function OtherKeys(entries: seq<Ref>, attempts: map<Ref, Attempt>, key: Key): (kept: seq<Ref>)
    requires forall i | 0 <= i < |entries| :: entries[i] in attempts
    ensures forall i | 0 <= i < |kept| :: kept[i] in attempts && attempts[kept[i]].key != key
  {
    if entries == [] then []
    else (if attempts[entries[0]].key != key then [entries[0]] else []) + OtherKeys(entries[1..], attempts, key)
  }

  function Without(entries: seq<Ref>, ref: Ref): (kept: seq<Ref>)
    ensures forall i | 0 <= i < |kept| :: kept[i] in entries && kept[i] != ref
  {
    if entries == [] then []
    else (if entries[0] != ref then [entries[0]] else []) + Without(entries[1..], ref)
  }

  predicate OnlyAt(entries: seq<Ref>, ref: Ref, i: int)
  {
    0 <= i < |entries| && entries[i] == ref && ref !in entries[..i] && ref !in entries[i + 1..]
  }

  lemma {:induction false} WithoutAppend(entries: seq<Ref>, ref: Ref, last: Ref)
    ensures Without(entries + [last], ref) == Without(entries, ref) + if last != ref then [last] else []
  {
    if entries == [] {
      assert entries + [last] == [last];
    } else {
      assert (entries + [last])[1..] == entries[1..] + [last];
      WithoutAppend(entries[1..], ref, last);
    }
  }

  lemma {:induction false} WithoutAbsent(entries: seq<Ref>, ref: Ref)
    requires ref !in entries
    ensures Without(entries, ref) == entries
  {
    if entries != [] { WithoutAbsent(entries[1..], ref); }
  }

  lemma {:induction false} WithoutRemoves(entries: seq<Ref>, ref: Ref, i: int)
    requires OnlyAt(entries, ref, i)
    ensures Without(entries, ref) == entries[..i] + entries[i + 1..]
  {
    if i == 0 {
      WithoutAbsent(entries[1..], ref);
    } else {
      assert entries[1..][..i - 1] == entries[1..i] && entries[1..][i..] == entries[i + 1..];
      assert entries[..i] == [entries[0]] + entries[1..i];
      WithoutRemoves(entries[1..], ref, i - 1);
    }
  }

  function Trimmed(entries: seq<Ref>): seq<Ref>
  {
    if |entries| < HISTORY_LIMIT then entries else entries[..HISTORY_LIMIT - 1]
  }

  function StartReply(s: State, key: Key): Reply
    requires forall i | 0 <= i < |s.entries| :: s.entries[i] in s.attempts
  {
    var open := FirstUnfinished(s.entries, s.attempts);
    if open.None? then Started
    else
      var attempt := s.attempts[open.value];
      if attempt.key == key && attempt.accepted then Existing(attempt) else Busy
  }

  function Dropped(a: Attempt): Attempt
  {
    if a.phase.Finished? then a else a.(phase := Finished, error := true)
  }

  predicate Enabled(s: State, e: Event)
  {
    match e
    case Start(_, ref) => ref !in s.attempts
    case Submit(ref, _) => ref in s.tickets && s.tickets[ref].Reserved?
    case Mark(ref) => ref in s.marking
    case Remove(ref) => ref in s.removing
    case Begin(ref) => ref in s.tickets && s.tickets[ref].Waiting?
    case Finish(ref, _) => ref in s.tickets && s.tickets[ref].Begun?
    case Drop(ref) => ref in s.tickets && !s.tickets[ref].Reserved?
  }

  predicate Closed(s: State)
  {
    && (forall i | 0 <= i < |s.entries| :: s.entries[i] in s.attempts)
    && s.tickets.Keys <= s.attempts.Keys && s.marking <= s.attempts.Keys && s.removing <= s.attempts.Keys
  }

  function Step(s: State, e: Event): (t: State)
    requires Closed(s) && Enabled(s, e)
    ensures Closed(t)
  {
    match e
    case Start(key, ref) =>
      if !StartReply(s, key).Started? then s
      else s.(entries := [ref] + Trimmed(OtherKeys(s.entries, s.attempts, key)),
              attempts := s.attempts[ref := Attempt(key, Queued, false, false)],
              tickets := s.tickets[ref := Reserved], started := s.started + [ref])
    case Submit(ref, ok) =>
      if ok then s.(tickets := s.tickets[ref := Waiting], marking := s.marking + {ref})
      else s.(tickets := s.tickets - {ref}, removing := s.removing + {ref},
              attempts := s.attempts[ref := Dropped(s.attempts[ref])])
    case Mark(ref) =>
      s.(marking := s.marking - {ref}, attempts := s.attempts[ref := s.attempts[ref].(accepted := true)])
    case Remove(ref) =>
      s.(removing := s.removing - {ref}, entries := Without(s.entries, ref), removed := s.removed + {ref})
    case Begin(ref) =>
      s.(tickets := s.tickets[ref := Begun], attempts := s.attempts[ref := s.attempts[ref].(phase := Running)])
    case Finish(ref, ok) =>
      s.(tickets := s.tickets[ref := Reported],
         attempts := s.attempts[ref := s.attempts[ref].(phase := Finished, error := !ok)])
    case Drop(ref) =>
      s.(tickets := s.tickets - {ref}, attempts := s.attempts[ref := Dropped(s.attempts[ref])])
  }

  // ----- The invariant -----

  /** The phase an attempt must have while its ticket is at a given point. */
  function PhaseOf(t: Ticket): Phase
  {
    match t
    case Reserved => Queued
    case Waiting => Queued
    case Begun => Running
    case Reported => Finished
  }

  /** An attempt is as far as its ticket, and finished once the ticket is gone. */
  ghost predicate TicketsAgree(attempts: map<Ref, Attempt>, tickets: map<Ref, Ticket>)
  {
    forall r | r in attempts :: attempts[r].phase == if r in tickets then PhaseOf(tickets[r]) else Finished
  }

  /** Whatever is not finished is the newest entry. */
  ghost predicate OpenIsNewest(entries: seq<Ref>, attempts: map<Ref, Attempt>)
  {
    forall r | r in attempts && Unfinished(attempts[r]) :: entries != [] && entries[0] == r
  }

  ghost predicate DistinctKeys(entries: seq<Ref>, attempts: map<Ref, Attempt>)
    requires forall i | 0 <= i < |entries| :: entries[i] in attempts
  {
    forall i, j | 0 <= i < j < |entries| :: attempts[entries[i]].key != attempts[entries[j]].key
  }

  ghost predicate Inv(s: State)
  {
    && Closed(s) && |s.entries| <= HISTORY_LIMIT
    && TicketsAgree(s.attempts, s.tickets)
    && OpenIsNewest(s.entries, s.attempts)
    && DistinctKeys(s.entries, s.attempts)
    && (forall r | r in s.removing :: r !in s.tickets)
  }

  lemma {:induction false} OtherKeysMembers(entries: seq<Ref>, attempts: map<Ref, Attempt>, key: Key)
    requires forall i | 0 <= i < |entries| :: entries[i] in attempts
    requires DistinctKeys(entries, attempts)
    ensures var kept := OtherKeys(entries, attempts, key);
            && |kept| <= |entries|
            && (forall i | 0 <= i < |kept| :: kept[i] in entries && kept[i] in attempts && attempts[kept[i]].key != key)
            && DistinctKeys(kept, attempts)
  {
    if entries != [] {
      OtherKeysMembers(entries[1..], attempts, key);
      var rest := OtherKeys(entries[1..], attempts, key);
      forall i | 0 <= i < |rest| ensures rest[i] in entries && attempts[rest[i]].key != attempts[entries[0]].key {
        assert rest[i] in entries[1..];
      }
    }
  }

  lemma {:induction false} WithoutMembers(entries: seq<Ref>, attempts: map<Ref, Attempt>, ref: Ref)
    requires forall i | 0 <= i < |entries| :: entries[i] in attempts
    requires DistinctKeys(entries, attempts)
    ensures var kept := Without(entries, ref);
            && |kept| <= |entries|
            && (forall i | 0 <= i < |kept| :: kept[i] in entries && kept[i] in attempts && kept[i] != ref)
            && (entries != [] && entries[0] != ref ==> kept != [] && kept[0] == entries[0])
            && DistinctKeys(kept, attempts)
  {
    if entries != [] {
      WithoutMembers(entries[1..], attempts, ref);
      var rest := Without(entries[1..], ref);
      forall i | 0 <= i < |rest| ensures rest[i] in entries && attempts[rest[i]].key != attempts[entries[0]].key {
        assert rest[i] in entries[1..];
      }
    }
  }

  lemma StartKeepsInv(s: State, key: Key, ref: Ref)
    requires Inv(s) && ref !in s.attempts
    ensures Inv(Step(s, Start(key, ref)))
  {
    if StartReply(s, key).Started? {
      OtherKeysMembers(s.entries, s.attempts, key);
      assert forall r | r in s.attempts :: !Unfinished(s.attempts[r]);
    }
  }

  lemma StepKeepsInv(s: State, e: Event)
    requires Inv(s) && Enabled(s, e)
    ensures Inv(Step(s, e))
  {
    match e {
      case Start(key, ref) => StartKeepsInv(s, key, ref);
      case Remove(ref) => WithoutMembers(s.entries, s.attempts, ref);
      case _ =>
    }
  }

  // ----- Whole runs -----

  function Exec(es: seq<Event>): (s: State)
    ensures Closed(s)
  {
    if es == [] then Initial
    else
      var s := Exec(es[..|es| - 1]);
      if Enabled(s, es[|es| - 1]) then Step(s, es[|es| - 1]) else s
  }

  lemma {:induction false} EveryRunKeepsInv(es: seq<Event>)
    ensures Inv(Exec(es))
  {
    if es != [] {
      EveryRunKeepsInv(es[..|es| - 1]);
      if Enabled(Exec(es[..|es| - 1]), es[|es| - 1]) {
        StepKeepsInv(Exec(es[..|es| - 1]), es[|es| - 1]);
      }
    }
  }

  /** In every interleaving at most one attempt is unfinished and it is the newest entry; the history holds at most
      sixteen attempts of distinct keys; an attempt whose ticket was dropped is finished. */
  lemma HistoryInEveryRun(es: seq<Event>)
    ensures var s := Exec(es);
            && |s.entries| <= HISTORY_LIMIT
            && (forall i, j | 0 <= i < j < |s.entries| :: s.attempts[s.entries[i]].key != s.attempts[s.entries[j]].key)
            && (forall q, r | q in s.attempts && r in s.attempts ::
                  !s.attempts[q].phase.Finished? && !s.attempts[r].phase.Finished? ==> q == r)
            && (forall r | r in s.attempts && !s.attempts[r].phase.Finished? ::
                  r in s.tickets && s.entries != [] && s.entries[0] == r)
            && (forall r | r in s.attempts && r !in s.tickets :: s.attempts[r].phase.Finished?)
  {
    EveryRunKeepsInv(es);
  }

  predicate AllFinished(attempts: map<Ref, Attempt>)
  {
    forall r | r in attempts :: attempts[r].phase.Finished?
  }

  lemma OpenIsFound(s: State, r: Ref)
    requires Inv(s) && r in s.attempts && Unfinished(s.attempts[r])
    ensures FirstUnfinished(s.entries, s.attempts).Some?
  {
    assert s.entries[0] == r;
  }

  lemma FoundIsOpen(s: State)
    requires Inv(s) && FirstUnfinished(s.entries, s.attempts).Some?
    ensures !AllFinished(s.attempts)
  {
    var r := FirstUnfinished(s.entries, s.attempts).value;
    assert r in s.attempts && Unfinished(s.attempts[r]);
  }

  /** A new attempt is admitted exactly when none is open. */
  lemma StartedOnlyWhenAllFinished(es: seq<Event>, key: Key)
    ensures StartReply(Exec(es), key).Started? <==> AllFinished(Exec(es).attempts)
  {
    EveryRunKeepsInv(es);
    var s := Exec(es);
    if FirstUnfinished(s.entries, s.attempts).Some? {
      FoundIsOpen(s);
    } else {
      forall r | r in s.attempts ensures !Unfinished(s.attempts[r])
      {
        if Unfinished(s.attempts[r]) { OpenIsFound(s, r); }
      }
    }
  }

  /** The one move an attempt's phase can make. */
  predicate Moves(before: Attempt, after: Attempt)
  {
    && after.key == before.key && (before.accepted ==> after.accepted)
    && (|| after.phase == before.phase
        || (before.phase.Queued? && after.phase.Running?)
        || after.phase.Finished?)
    && (before.phase.Finished? ==> after.error == before.error)
  }

  lemma StepMoves(s: State, e: Event, r: Ref)
    requires Inv(s) && Enabled(s, e) && r in s.attempts
    ensures r in Step(s, e).attempts && Moves(s.attempts[r], Step(s, e).attempts[r])
  {
  }

  /** Over a whole run an attempt only goes from queued to running to finished, and keeps its outcome. */
  lemma {:induction false} PhasesOnlyAdvance(es: seq<Event>, i: nat, r: Ref)
    requires i <= |es| && r in Exec(es[..i]).attempts
    ensures r in Exec(es).attempts && Moves(Exec(es[..i]).attempts[r], Exec(es).attempts[r])
  {
    if i == |es| {
      assert es[..i] == es;
    } else {
      var before := es[..|es| - 1];
      assert before[..i] == es[..i];
      PhasesOnlyAdvance(before, i, r);
      EveryRunKeepsInv(before);
      if Enabled(Exec(before), es[|es| - 1]) {
        StepMoves(Exec(before), es[|es| - 1], r);
      }
    }
  }

  // ----- Outcomes -----

  lemma After(es: seq<Event>, i: nat)
    requires i < |es| && Enabled(Exec(es[..i]), es[i])
    ensures Exec(es[..i + 1]) == Step(Exec(es[..i]), es[i])
  {
    assert es[..i + 1][..i] == es[..i];
  }

  /** The worker's result is what the attempt shows from then on: an error exactly when the work failed. */
  lemma ResultIsRecorded(es: seq<Event>, i: nat, ref: Ref, ok: bool)
    requires i < |es| && es[i] == Finish(ref, ok) && Enabled(Exec(es[..i]), es[i])
    ensures ref in Exec(es).attempts && Exec(es).attempts[ref].phase.Finished? && Exec(es).attempts[ref].error == !ok
  {
    After(es, i);
    PhasesOnlyAdvance(es, i + 1, ref);
  }

  /** An attempt whose ticket goes without a result, dropped by the worker or refused at the queue, shows an error. */
  lemma NoResultIsAnError(es: seq<Event>, i: nat, ref: Ref)
    requires i < |es| && (es[i] == Drop(ref) || es[i] == Submit(ref, false)) && Enabled(Exec(es[..i]), es[i])
    requires !Exec(es[..i]).tickets[ref].Reported?
    ensures ref in Exec(es).attempts && Exec(es).attempts[ref].phase.Finished? && Exec(es).attempts[ref].error
  {
    EveryRunKeepsInv(es[..i]);
    After(es, i);
    PhasesOnlyAdvance(es, i + 1, ref);
  }

  /** A result that was reported before the ticket goes is left as it is. */
  lemma ReportedResultStands(es: seq<Event>, i: nat, ref: Ref)
    requires i < |es| && es[i] == Drop(ref) && Enabled(Exec(es[..i]), es[i]) && Exec(es[..i]).tickets[ref].Reported?
    ensures ref in Exec(es).attempts && Exec(es).attempts[ref].error == Exec(es[..i]).attempts[ref].error
  {
    EveryRunKeepsInv(es[..i]);
    PhasesOnlyAdvance(es, i, ref);
  }

  /** An attempt counts as accepted from the mark that follows its submission, and only from then. */
  lemma AcceptedFromItsMark(es: seq<Event>, e: Event, ref: Ref)
    requires Enabled(Exec(es), e) && ref in Exec(es).attempts
    ensures Step(Exec(es), e).attempts[ref].accepted <==> Exec(es).attempts[ref].accepted || e == Mark(ref)
  {
  }

  /** What is still to come of an attempt: it is marked exactly once after its submission, removed exactly once after a
      refused one, and its ticket goes through the worker once, from its submission to its end. */
  lemma EachHappensOnce(es: seq<Event>, e: Event, ref: Ref)
    requires Enabled(Exec(es), e)
    ensures var s, t := Exec(es), Step(Exec(es), e);
            && (Enabled(t, Mark(ref)) <==> e == Submit(ref, true) || (Enabled(s, Mark(ref)) && e != Mark(ref)))
            && (Enabled(t, Remove(ref)) <==> e == Submit(ref, false) || (Enabled(s, Remove(ref)) && e != Remove(ref)))
            && (Enabled(t, Begin(ref)) <==>
                  e == Submit(ref, true) || (Enabled(s, Begin(ref)) && e != Begin(ref) && e != Drop(ref)))
            && (forall ok :: Enabled(t, Finish(ref, ok)) <==>
                  e == Begin(ref) || (Enabled(s, Finish(ref, ok)) && !(e.Finish? && e.ref == ref) && e != Drop(ref)))
            && (Enabled(t, Drop(ref)) <==> e == Submit(ref, true) || (Enabled(s, Drop(ref)) && e != Drop(ref)))
  {
    EveryRunKeepsInv(es);
  }

  /** While an attempt is open, another start is answered with it exactly when it is for the same key and accepted, and
      is busy otherwise. */
  lemma OpenAttemptAnswers(es: seq<Event>, key: Key, r: Ref)
    requires r in Exec(es).attempts && !Exec(es).attempts[r].phase.Finished?
    ensures var s := Exec(es); var a := s.attempts[r];
            StartReply(s, key) == if a.key == key && a.accepted then Existing(a) else Busy
  {
    EveryRunKeepsInv(es);
    assert Exec(es).entries[0] == r;
  }

  // ----- Which attempts the history keeps -----

  function KeysOf(attempts: map<Ref, Attempt>): map<Ref, Key> { map r | r in attempts :: attempts[r].key }

  predicate HasKey(keys: map<Ref, Key>, r: Ref, key: Key) { r in keys && keys[r] == key }

  function Others(refs: seq<Ref>, keys: map<Ref, Key>, key: Key): seq<Ref>
  {
    if refs == [] then []
    else (if HasKey(keys, refs[0], key) then [] else [refs[0]]) + Others(refs[1..], keys, key)
  }

  /** The latest attempt of each key, newest first, without the rejected ones. */
  function Recent(started: seq<Ref>, keys: map<Ref, Key>, removed: set<Ref>): seq<Ref>
  {
    if started == [] then []
    else
      var r, older := started[|started| - 1], Recent(started[..|started| - 1], keys, removed);
      (if r in removed then [] else [r]) + if r in keys then Others(older, keys, keys[r]) else older
  }

  lemma {:induction false} OthersIs(entries: seq<Ref>, attempts: map<Ref, Attempt>, key: Key)
    requires forall i | 0 <= i < |entries| :: entries[i] in attempts
    ensures OtherKeys(entries, attempts, key) == Others(entries, KeysOf(attempts), key)
  {
    if entries != [] { OthersIs(entries[1..], attempts, key); }
  }

  lemma {:induction false} OthersConcat(a: seq<Ref>, b: seq<Ref>, keys: map<Ref, Key>, key: Key)
    ensures Others(a + b, keys, key) == Others(a, keys, key) + Others(b, keys, key)
  {
    if a == [] {
      assert a + b == b;
    } else {
      assert (a + b)[1..] == a[1..] + b;
      OthersConcat(a[1..], b, keys, key);
    }
  }

  lemma {:induction false} WithoutConcat(a: seq<Ref>, b: seq<Ref>, ref: Ref)
    ensures Without(a + b, ref) == Without(a, ref) + Without(b, ref)
  {
    if a == [] {
      assert a + b == b;
    } else {
      assert (a + b)[1..] == a[1..] + b;
      WithoutConcat(a[1..], b, ref);
    }
  }

  lemma {:induction false} OthersMembers(refs: seq<Ref>, keys: map<Ref, Key>, key: Key)
    ensures |Others(refs, keys, key)| <= |refs|
    ensures forall i | 0 <= i < |Others(refs, keys, key)| :: Others(refs, keys, key)[i] in refs
  {
    if refs != [] { OthersMembers(refs[1..], keys, key); }
  }

  lemma {:induction false} OthersFresh(refs: seq<Ref>, keys: map<Ref, Key>, key: Key, ref: Ref, of: Key)
    requires ref !in refs
    ensures Others(refs, keys[ref := of], key) == Others(refs, keys, key)
  {
    if refs != [] { OthersFresh(refs[1..], keys, key, ref, of); }
  }

  lemma {:induction false} OthersWithout(refs: seq<Ref>, keys: map<Ref, Key>, key: Key, ref: Ref)
    ensures Others(Without(refs, ref), keys, key) == Without(Others(refs, keys, key), ref)
  {
    if refs != [] {
      var first, rest := [refs[0]], refs[1..];
      OthersWithout(rest, keys, key, ref);
      WithoutConcat(if HasKey(keys, refs[0], key) then [] else first, Others(rest, keys, key), ref);
      OthersConcat(if refs[0] != ref then first else [], Without(rest, ref), keys, key);
    }
  }

  lemma {:induction false} RecentMembers(started: seq<Ref>, keys: map<Ref, Key>, removed: set<Ref>)
    ensures forall i | 0 <= i < |Recent(started, keys, removed)| :: Recent(started, keys, removed)[i] in started
  {
    if started != [] {
      var n := |started| - 1;
      RecentMembers(started[..n], keys, removed);
      if started[n] in keys { OthersMembers(Recent(started[..n], keys, removed), keys, keys[started[n]]); }
    }
  }

  lemma {:induction false} RecentFresh(started: seq<Ref>, keys: map<Ref, Key>, removed: set<Ref>, ref: Ref, of: Key)
    requires ref !in started
    ensures Recent(started, keys[ref := of], removed) == Recent(started, keys, removed)
  {
    if started != [] {
      var n := |started| - 1;
      RecentFresh(started[..n], keys, removed, ref, of);
      RecentMembers(started[..n], keys, removed);
      if started[n] in keys { OthersFresh(Recent(started[..n], keys, removed), keys, keys[started[n]], ref, of); }
    }
  }

  lemma {:induction false} RecentWithout(started: seq<Ref>, keys: map<Ref, Key>, removed: set<Ref>, ref: Ref)
    ensures Recent(started, keys, removed + {ref}) == Without(Recent(started, keys, removed), ref)
  {
    if started != [] {
      var n := |started| - 1;
      var r, older := started[n], Recent(started[..n], keys, removed);
      RecentWithout(started[..n], keys, removed, ref);
      var kept := if r in keys then Others(older, keys, keys[r]) else older;
      if r in keys { OthersWithout(older, keys, keys[r], ref); }
      WithoutConcat(if r in removed then [] else [r], kept, ref);
    }
  }

  lemma {:induction false} WithoutLength(refs: seq<Ref>, ref: Ref)
    ensures |Without(refs, ref)| <= |refs|
    ensures (forall i, j | 0 <= i < j < |refs| :: refs[i] != refs[j]) ==> |Without(refs, ref)| >= |refs| - 1
  {
    if refs != [] {
      WithoutLength(refs[1..], ref);
      if refs[0] == ref && forall i, j | 0 <= i < j < |refs| :: refs[i] != refs[j] { WithoutAbsent(refs[1..], ref); }
    }
  }

  lemma {:induction false} OtherKeysLength(entries: seq<Ref>, attempts: map<Ref, Attempt>, key: Key)
    requires forall i | 0 <= i < |entries| :: entries[i] in attempts
    requires DistinctKeys(entries, attempts)
    ensures |entries| - 1 <= |OtherKeys(entries, attempts, key)| <= |entries|
    ensures (forall i | 0 <= i < |entries| :: attempts[entries[i]].key != key) ==>
              |OtherKeys(entries, attempts, key)| == |entries|
  {
    if entries != [] { OtherKeysLength(entries[1..], attempts, key); }
  }

  function Least(a: int, b: int): int { if a <= b then a else b }

  /** The entries are the newest of the latest attempts, and all sixteen of them unless rejected ones took a place. */
  predicate Newest(entries: seq<Ref>, recent: seq<Ref>, lost: nat)
  {
    entries <= recent && Least(HISTORY_LIMIT, |recent|) <= |entries| + lost
  }

  ghost predicate KeepsNewest(s: State)
  {
    && Newest(s.entries, Recent(s.started, KeysOf(s.attempts), s.removed), |s.removed|)
    && (forall i | 0 <= i < |s.started| :: s.started[i] in s.attempts)
    && s.removed <= s.attempts.Keys && (forall r | r in s.removed :: r !in s.tickets && r !in s.removing)
  }

  lemma RecentStarted(started: seq<Ref>, keys: map<Ref, Key>, removed: set<Ref>, key: Key, ref: Ref)
    requires ref !in started && ref !in removed
    ensures Recent(started + [ref], keys[ref := key], removed) ==
            [ref] + Others(Recent(started, keys, removed), keys, key)
  {
    assert (started + [ref])[..|started|] == started;
    RecentFresh(started, keys, removed, ref, key);
    RecentMembers(started, keys, removed);
    OthersFresh(Recent(started, keys, removed), keys, key, ref, key);
  }

  lemma TrimmedIsPrefix(ref: Ref, a: seq<Ref>, b: seq<Ref>)
    ensures [ref] + Trimmed(a) <= [ref] + (a + b)
    ensures |[ref] + Trimmed(a)| == Least(HISTORY_LIMIT, 1 + |a|)
  {
  }

  /** Making room at the back keeps the newest, and as many as there is room for. */
  lemma RoomKeepsNewest(entries: seq<Ref>, recent: seq<Ref>, keys: map<Ref, Key>, key: Key, ref: Ref, lost: nat)
    requires Newest(entries, recent, lost) && |entries| - 1 <= |Others(entries, keys, key)|
    ensures Newest([ref] + Trimmed(Others(entries, keys, key)), [ref] + Others(recent, keys, key), lost)
  {
    var tail := recent[|entries|..];
    assert recent == entries + tail;
    OthersConcat(entries, tail, keys, key);
    OthersMembers(tail, keys, key);
    TrimmedIsPrefix(ref, Others(entries, keys, key), Others(tail, keys, key));
  }

  lemma StartedNewest(entries: seq<Ref>, attempts: map<Ref, Attempt>, started: seq<Ref>, removed: set<Ref>, key: Key,
                      ref: Ref, added: Attempt)
    requires (forall i | 0 <= i < |entries| :: entries[i] in attempts) && DistinctKeys(entries, attempts)
    requires Newest(entries, Recent(started, KeysOf(attempts), removed), |removed|)
    requires ref !in started && ref !in removed && added.key == key
    ensures Newest([ref] + Trimmed(OtherKeys(entries, attempts, key)),
                   Recent(started + [ref], KeysOf(attempts[ref := added]), removed), |removed|)
  {
    var keys := KeysOf(attempts);
    assert KeysOf(attempts[ref := added]) == keys[ref := key];
    OthersIs(entries, attempts, key);
    OtherKeysLength(entries, attempts, key);
    RecentStarted(started, keys, removed, key, ref);
    RoomKeepsNewest(entries, Recent(started, keys, removed), keys, key, ref, |removed|);
  }

  lemma StartKeepsNewest(s: State, key: Key, ref: Ref)
    requires Inv(s) && KeepsNewest(s) && ref !in s.attempts && StartReply(s, key).Started?
    ensures KeepsNewest(Step(s, Start(key, ref)))
  {
    StartedNewest(s.entries, s.attempts, s.started, s.removed, key, ref, Attempt(key, Queued, false, false));
  }

  lemma NewestWithout(entries: seq<Ref>, recent: seq<Ref>, lost: nat, ref: Ref)
    requires Newest(entries, recent, lost)
    requires forall i, j | 0 <= i < j < |entries| :: entries[i] != entries[j]
    ensures Newest(Without(entries, ref), Without(recent, ref), lost + 1)
  {
    var tail := recent[|entries|..];
    assert recent == entries + tail;
    WithoutConcat(entries, tail, ref);
    WithoutLength(entries, ref);
    WithoutLength(recent, ref);
  }

  lemma RemoveKeepsNewest(s: State, ref: Ref)
    requires Inv(s) && KeepsNewest(s) && ref in s.removing
    ensures KeepsNewest(Step(s, Remove(ref)))
  {
    RecentWithout(s.started, KeysOf(s.attempts), s.removed, ref);
    NewestWithout(s.entries, Recent(s.started, KeysOf(s.attempts), s.removed), |s.removed|, ref);
  }

  lemma TicketKeepsNewest(s: State, e: Event)
    requires Inv(s) && KeepsNewest(s) && Enabled(s, e) && !e.Start? && !e.Remove?
    ensures KeepsNewest(Step(s, e))
  {
    assert KeysOf(Step(s, e).attempts) == KeysOf(s.attempts);
  }

  lemma StepKeepsNewest(s: State, e: Event)
    requires Inv(s) && KeepsNewest(s) && Enabled(s, e)
    ensures KeepsNewest(Step(s, e))
  {
    match e {
      case Start(key, ref) => if StartReply(s, key).Started? { StartKeepsNewest(s, key, ref); }
      case Remove(ref) => RemoveKeepsNewest(s, ref);
      case _ => TicketKeepsNewest(s, e);
    }
  }

  lemma {:induction false} EveryRunKeepsNewest(es: seq<Event>)
    ensures KeepsNewest(Exec(es))
  {
    if es != [] {
      EveryRunKeepsNewest(es[..|es| - 1]);
      EveryRunKeepsInv(es[..|es| - 1]);
      if Enabled(Exec(es[..|es| - 1]), es[|es| - 1]) { StepKeepsNewest(Exec(es[..|es| - 1]), es[|es| - 1]); }
    }
  }

  /** In every interleaving the history is the newest of the latest attempts of each key, newest first; with nothing
      rejected it is the newest sixteen, or all of them if there are no more. */
  lemma HistoryKeepsTheNewest(es: seq<Event>)
    ensures var s := Exec(es); var recent := Recent(s.started, KeysOf(s.attempts), s.removed);
            && s.entries <= recent
            && (s.removed == {} ==> s.entries == recent[..Least(HISTORY_LIMIT, |recent|)])
  {
    EveryRunKeepsNewest(es);
    EveryRunKeepsInv(es);
  }

  // ----- The coordinator as the source updates it -----

  class ExecutionClient {
    var entries: seq<Ref>
    var attempts: map<Ref, Attempt>
    ghost var tickets: map<Ref, Ticket>
    ghost var marking: set<Ref>
    ghost var removing: set<Ref>
    ghost var started: seq<Ref>
    ghost var removed: set<Ref>

    ghost function Snapshot(): State
      reads this
    {
      State(entries, attempts, tickets, marking, removing, started, removed)
    }

    constructor ()
      ensures Snapshot() == Initial
    {
      entries, attempts, tickets, marking, removing, started, removed := [], map[], map[], {}, {}, [], {};
    }

    /** The first section of `start`. */
    method Start(key: Key, ref: Ref) returns (reply: Reply)
      requires Closed(Snapshot()) && Enabled(Snapshot(), Event.Start(key, ref))
      modifies this
      ensures Snapshot() == Step(old(Snapshot()), Event.Start(key, ref))
      ensures reply == StartReply(old(Snapshot()), key)
    {
      var i := 0;
      while i < |entries|
        invariant i <= |entries|
        invariant FirstUnfinished(entries, attempts) == FirstUnfinished(entries[i..], attempts)
      {
        var attempt := attempts[entries[i]];
        assert entries[i..][1..] == entries[i + 1..];
        if attempt.phase.Queued? || attempt.phase.Running? {
          return if attempt.key == key && attempt.accepted then Existing(attempt) else Busy;
        }
        i := i + 1;
      }
      var kept := Retain(entries, attempts, key);
      kept := PopBack(kept);
      attempts := attempts[ref := Attempt(key, Queued, false, false)];
      tickets := tickets[ref := Reserved];
      entries, started := [ref] + kept, started + [ref];
      return Started;
    }

    /** `status`: the accepted attempt of a key, if the history has one. */
    method StatusOf(key: Key) returns (found: Option<Attempt>)
      requires Inv(Snapshot())
      ensures found.Some? <==>
                exists i :: 0 <= i < |entries| && attempts[entries[i]].key == key && attempts[entries[i]].accepted
      ensures found.Some? ==> found.value.key == key && found.value.accepted
      ensures found.Some? ==> exists i :: 0 <= i < |entries| && found.value == attempts[entries[i]]
    {
      for i := 0 to |entries|
        invariant forall k | 0 <= k < i :: !(attempts[entries[k]].key == key && attempts[entries[k]].accepted)
      {
        if attempts[entries[i]].key == key && attempts[entries[i]].accepted {
          return Some(attempts[entries[i]]);
        }
      }
      return None;
    }

    /** After `try_submit`: the ticket is with the worker, or was dropped with the refusal. */
    method Submitted(ref: Ref, ok: bool)
      requires Closed(Snapshot()) && Enabled(Snapshot(), Submit(ref, ok))
      modifies this
      ensures Snapshot() == Step(old(Snapshot()), Submit(ref, ok))
    {
      if ok {
        tickets, marking := tickets[ref := Waiting], marking + {ref};
      } else {
        tickets, removing := tickets - {ref}, removing + {ref};
        attempts := attempts[ref := Dropped(attempts[ref])];
      }
    }

    method MarkAccepted(ref: Ref) returns (status: Attempt)
      requires Closed(Snapshot()) && Enabled(Snapshot(), Mark(ref))
      modifies this
      ensures Snapshot() == Step(old(Snapshot()), Mark(ref)) && ref in attempts && status == attempts[ref]
    {
      marking := marking - {ref};
      attempts := attempts[ref := attempts[ref].(accepted := true)];
      status := attempts[ref];
    }

    /** The rejected attempt leaves the history; every other entry stays, in its order. */
    method RemoveRejected(ref: Ref)
      requires Closed(Snapshot()) && Enabled(Snapshot(), Event.Remove(ref))
      modifies this`entries, this`removing, this`removed
      ensures Snapshot() == Step(old(Snapshot()), Event.Remove(ref))
      ensures ref !in entries && (ref !in old(entries) ==> entries == old(entries))
      ensures forall i | OnlyAt(old(entries), ref, i) :: entries == old(entries)[..i] + old(entries)[i + 1..]
    {
      removing, removed := removing - {ref}, removed + {ref};
      entries := RetainOthers(entries, ref);
      if ref !in old(entries) { WithoutAbsent(old(entries), ref); }
      forall i | OnlyAt(old(entries), ref, i) ensures entries == old(entries)[..i] + old(entries)[i + 1..]
      {
        WithoutRemoves(old(entries), ref, i);
      }
    }

    method TicketBegin(ref: Ref)
      requires Closed(Snapshot()) && Enabled(Snapshot(), Event.Begin(ref))
      modifies this
      ensures Snapshot() == Step(old(Snapshot()), Event.Begin(ref))
    {
      tickets := tickets[ref := Begun];
      attempts := attempts[ref := attempts[ref].(phase := Running)];
    }

    method TicketFinished(ref: Ref, ok: bool)
      requires Closed(Snapshot()) && Enabled(Snapshot(), Event.Finish(ref, ok))
      modifies this
      ensures Snapshot() == Step(old(Snapshot()), Event.Finish(ref, ok))
    {
      tickets := tickets[ref := Reported];
      attempts := attempts[ref := attempts[ref].(phase := Finished, error := !ok)];
    }

    method TicketDrop(ref: Ref)
      requires Closed(Snapshot()) && Enabled(Snapshot(), Event.Drop(ref))
      modifies this
      ensures Snapshot() == Step(old(Snapshot()), Event.Drop(ref))
    {
      tickets := tickets - {ref};
      if !attempts[ref].phase.Finished? {
        attempts := attempts[ref := attempts[ref].(phase := Finished, error := true)];
      }
    }
  }

  lemma {:induction false} OtherKeysAppend(entries: seq<Ref>, attempts: map<Ref, Attempt>, key: Key, last: Ref)
    requires last in attempts && forall i | 0 <= i < |entries| :: entries[i] in attempts
    ensures OtherKeys(entries + [last], attempts, key)
         == OtherKeys(entries, attempts, key) + if attempts[last].key != key then [last] else []
  {
    if entries == [] {
      assert entries + [last] == [last];
    } else {
      assert (entries + [last])[1..] == entries[1..] + [last];
      OtherKeysAppend(entries[1..], attempts, key, last);
    }
  }

  /** `pop_back` until there is room for one more. */
  method PopBack(entries: seq<Ref>) returns (kept: seq<Ref>)
    ensures kept == Trimmed(entries)
  {
    kept := entries;
    while |kept| >= HISTORY_LIMIT
      invariant Trimmed(kept) == Trimmed(entries)
    {
      kept := kept[..|kept| - 1];
    }
  }

  /** `retain` over the history. */
  method Retain(entries: seq<Ref>, attempts: map<Ref, Attempt>, key: Key) returns (kept: seq<Ref>)
    requires forall i | 0 <= i < |entries| :: entries[i] in attempts
    ensures kept == OtherKeys(entries, attempts, key)
  {
    kept := [];
    for i := 0 to |entries|
      invariant kept == OtherKeys(entries[..i], attempts, key)
    {
      assert entries[..i + 1] == entries[..i] + [entries[i]];
      OtherKeysAppend(entries[..i], attempts, key, entries[i]);
      if attempts[entries[i]].key != key {
        kept := kept + [entries[i]];
      }
    }
    assert entries[..|entries|] == entries;
  }

  /** `retain` of everything but one attempt. */
  method RetainOthers(entries: seq<Ref>, ref: Ref) returns (kept: seq<Ref>)
    ensures kept == Without(entries, ref)
  {
    kept := [];
    for i := 0 to |entries|
      invariant kept == Without(entries[..i], ref)
    {
      assert entries[..i + 1] == entries[..i] + [entries[i]];
      WithoutAppend(entries[..i], ref, entries[i]);
      if entries[i] != ref {
        kept := kept + [entries[i]];
      }
    }
    assert entries[..|entries|] == entries;
  }
}
