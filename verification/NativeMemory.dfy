/** The native-memory supervisor (crates/contextd/src/native_memory.rs and crates/core/src/native_memory/debounce.rs):
    it probes every registered source on a timer, debounces what it reads, hands a stable observation to the vault
    worker, and moves the source's baseline when the worker accepts. The filesystem probe, the clock, the worker's
    admission and its answer are inputs. */
module NativeMemory {
  import opened Options

  type Id = int
  type Content = int

  /** A digest, or absence: an absent file is observed and debounced like any other content. */
  type Digest = Option<Content>

  const DEBOUNCE_MS: int := 750

  datatype Kind = LiveEdit | InitialPreview
  datatype Watched = Watched(initialComplete: bool, baseline: Option<Digest>)

  /** A debounce entry: the digest being timed and when its timer started. */
  datatype Seen = Seen(digest: Digest, since: int)
  datatype Ready = Ready(digest: Digest, since: int, kind: Kind)

  /** A submission the worker has admitted and not yet answered. */
  datatype Job = Job(id: Id, ready: Ready)

  /** One probe that was made: what it read (`None` when the snapshot failed), when, and whether the read was the
      source's known baseline. */
  datatype Probe = Probe(id: Id, read: Option<Digest>, now: int, known: bool)

  datatype State = State(
    sources: map<Id, Watched>,
    debounce: map<Id, Seen>,
    pending: map<Id, Ready>,
    inFlight: map<Id, Ready>,   // sources in flight, each with what was submitted
    jobs: multiset<Job>,
    probes: seq<Probe>)         // history, oldest first

  datatype Event =
    | Refresh(replacement: map<Id, Watched>)
    | Scan(id: Id, read: Option<Digest>, now: int)
    | Submit(id: Id, admitted: bool)
    | Complete(job: Job, ok: bool)
    | Lost(job: Job)

  const Initial: State := State(map[], map[], map[], map[], multiset{}, [])

  // ---- one step -----------------------------------------------------------

  /** The debounce entry after observing `d` at `now`. */
  function Observed(debounce: map<Id, Seen>, id: Id, d: Digest, now: int): Seen
  {
    if id in debounce && debounce[id].digest == d && debounce[id].since <= now then debounce[id] else Seen(d, now)
  }

  predicate Known(w: Watched, d: Digest) { w.initialComplete && w.baseline == Some(d) }

  function KindOf(w: Watched): Kind { if w.initialComplete then LiveEdit else InitialPreview }

  /** One source's turn in the scan. */
  function Scanned(s: State, id: Id, read: Option<Digest>, now: int): State
    requires id in s.sources
  {
    if id in s.inFlight then s
    else if read.None? then
      s.(debounce := if id in s.pending then s.debounce else s.debounce - {id},
         probes := s.probes + [Probe(id, read, now, false)])
    else
      var d := read.value;
      var known := Known(s.sources[id], d);
      var pending := if id in s.pending && s.pending[id].digest != d then s.pending - {id} else s.pending;
      var probes := s.probes + [Probe(id, read, now, known)];
      if known then s.(pending := pending, probes := probes)
      else
        var seen := Observed(s.debounce, id, d, now);
        s.(debounce := s.debounce[id := seen],
           pending := if now - seen.since >= DEBOUNCE_MS
                      then pending[id := Ready(d, seen.since, KindOf(s.sources[id]))] else pending,
           probes := probes)
  }

  function Acknowledged(debounce: map<Id, Seen>, id: Id, ready: Ready): map<Id, Seen>
  {
    if id in debounce && debounce[id] == Seen(ready.digest, ready.since) then debounce - {id} else debounce
  }

  /** A submission that came back. */
  function Completed(s: State, id: Id, ok: bool): State
  {
    var t := s.(inFlight := s.inFlight - {id});
    if !ok || id !in s.pending then t
    else
      var ready := s.pending[id];
      t.(pending := s.pending - {id},
         debounce := Acknowledged(s.debounce, id, ready),
         sources := if id in s.sources then s.sources[id := Watched(true, Some(ready.digest))] else s.sources)
  }

  predicate Enabled(s: State, e: Event)
  {
    match e
    case Refresh(_) => true
    case Scan(id, _, _) => id in s.sources
    case Submit(id, _) => id in s.pending
    case Complete(job, _) => job in s.jobs
    case Lost(job) => job in s.jobs
  }

  function Step(s: State, e: Event): State
    requires Enabled(s, e)
  {
    match e
    case Refresh(replacement) =>
      var removed := s.sources.Keys - replacement.Keys;
      s.(sources := replacement, pending := s.pending - removed, debounce := s.debounce - removed)
    case Scan(id, read, now) => Scanned(s, id, read, now)
    case Submit(id, admitted) =>
      if id in s.inFlight || !admitted then s
      else s.(inFlight := s.inFlight[id := s.pending[id]], jobs := s.jobs + multiset{Job(id, s.pending[id])})
    case Complete(job, ok) => Completed(s.(jobs := s.jobs - multiset{job}), job.id, ok)
    case Lost(job) => s.(jobs := s.jobs - multiset{job})
  }

  /** A run: the events in order, those not enabled skipped. */
  function Exec(s: State, es: seq<Event>): State
  {
    if es == [] then s
    else
      var t := Exec(s, es[..|es| - 1]);
      var e := es[|es| - 1];
      if Enabled(t, e) then Step(t, e) else t
  }

  // ---- what every run keeps -----------------------------------------------

  /** While a source is in flight its pending entry is absent or exactly what was submitted. */
  predicate Frozen(pending: map<Id, Ready>, inFlight: map<Id, Ready>)
  {
    forall id | id in inFlight && id in pending :: pending[id] == inFlight[id]
  }

  /** Every unanswered submission is the one in flight for its source, and there is only one of it. */
  predicate Sole(jobs: multiset<Job>, inFlight: map<Id, Ready>)
  {
    forall j | j in jobs :: jobs[j] == 1 && j.id in inFlight && inFlight[j.id] == j.ready
  }

  /** Probe `k` started a timer for `seen`, and no later probe read anything else unless it read the baseline. */
  predicate Times(probes: seq<Probe>, id: Id, seen: Seen, k: int)
  {
    && 0 <= k < |probes| && probes[k] == Probe(id, Some(seen.digest), seen.since, false)
    && UnbrokenFrom(probes, id, seen.digest, k, |probes|)
  }

  predicate UnbrokenFrom(probes: seq<Probe>, id: Id, d: Digest, k: int, m: int)
  {
    forall i | 0 <= i < |probes| && k <= i < m ::
      probes[i].id == id && probes[i].read.Some? && !probes[i].known ==> probes[i].read == Some(d)
  }

  /** Probes `k` and `m` are at least the debounce window apart, both read the digest, and so did everything between
      them that was not a read of the baseline. */
  predicate StableOver(probes: seq<Probe>, id: Id, r: Ready, k: int, m: int)
  {
    && 0 <= k < m < |probes|
    && probes[k] == Probe(id, Some(r.digest), r.since, false)
    && probes[m].id == id && probes[m].read == Some(r.digest) && probes[m].now - r.since >= DEBOUNCE_MS
    && UnbrokenFrom(probes, id, r.digest, k, m)
  }

  ghost predicate Timed(debounce: map<Id, Seen>, probes: seq<Probe>)
  {
    forall id | id in debounce :: exists k :: Times(probes, id, debounce[id], k)
  }

  ghost predicate Stable(readies: map<Id, Ready>, probes: seq<Probe>)
  {
    forall id | id in readies :: exists k, m :: StableOver(probes, id, readies[id], k, m)
  }

  ghost predicate Inv(s: State)
  {
    && Frozen(s.pending, s.inFlight)
    && Sole(s.jobs, s.inFlight)
    && Timed(s.debounce, s.probes)
    && Stable(s.pending, s.probes)
    && Stable(s.inFlight, s.probes)
  }

  lemma StableAppends(readies: map<Id, Ready>, probes: seq<Probe>, p: Probe)
    requires Stable(readies, probes)
    ensures Stable(readies, probes + [p])
  {
    forall id | id in readies ensures exists k, m :: StableOver(probes + [p], id, readies[id], k, m)
    {
      var k, m :| StableOver(probes, id, readies[id], k, m);
      assert StableOver(probes + [p], id, readies[id], k, m);
    }
  }

  /** A probe that says nothing against a timer keeps it. */
  lemma TimerAppends(probes: seq<Probe>, id: Id, seen: Seen, k: int, p: Probe)
    requires Times(probes, id, seen, k)
    requires p.id == id && p.read.Some? && !p.known ==> p.read == Some(seen.digest)
    ensures Times(probes + [p], id, seen, k)
  {
  }

  /** Timers after a probe, given that the probed source's own timer is dropped, or agrees with the probe. */
  lemma TimersAppend(debounce: map<Id, Seen>, probes: seq<Probe>, p: Probe)
    requires Timed(debounce, probes)
    requires p.id in debounce && p.read.Some? && !p.known ==> p.read == Some(debounce[p.id].digest)
    ensures Timed(debounce, probes + [p])
  {
    forall id | id in debounce ensures exists k :: Times(probes + [p], id, debounce[id], k)
    {
      var k :| Times(probes, id, debounce[id], k);
      TimerAppends(probes, id, debounce[id], k, p);
    }
  }

  /** The timer that observing `d` leaves was started by a probe in the history. */
  lemma ObservedIsTimed(debounce: map<Id, Seen>, probes: seq<Probe>, id: Id, d: Digest, now: int) returns (k: int)
    requires Timed(debounce, probes)
    ensures Times(probes + [Probe(id, Some(d), now, false)], id, Observed(debounce, id, d, now), k)
  {
    var p := Probe(id, Some(d), now, false);
    if Observed(debounce, id, d, now) == Seen(d, now) {
      k := |probes|;
    } else {
      k :| Times(probes, id, debounce[id], k);
      TimerAppends(probes, id, debounce[id], k, p);
    }
  }

  lemma ObserveKeepsHistory(debounce: map<Id, Seen>, probes: seq<Probe>, id: Id, d: Digest, now: int)
    requires Timed(debounce, probes)
    ensures Timed(debounce[id := Observed(debounce, id, d, now)], probes + [Probe(id, Some(d), now, false)])
  {
    var p := Probe(id, Some(d), now, false);
    var k := ObservedIsTimed(debounce, probes, id, d, now);
    var after := debounce[id := Observed(debounce, id, d, now)];
    forall x | x in after ensures exists k :: Times(probes + [p], x, after[x], k)
    {
      if x != id {
        var k :| Times(probes, x, debounce[x], k);
        TimerAppends(probes, x, debounce[x], k, p);
      }
    }
  }

  /** What a scan makes ready was stable. */
  lemma ReadyIsStable(debounce: map<Id, Seen>, probes: seq<Probe>, id: Id, d: Digest, now: int, kind: Kind)
    requires Timed(debounce, probes)
    requires now - Observed(debounce, id, d, now).since >= DEBOUNCE_MS
    ensures exists k, m :: StableOver(probes + [Probe(id, Some(d), now, false)], id,
                                      Ready(d, Observed(debounce, id, d, now).since, kind), k, m)
  {
    var p := Probe(id, Some(d), now, false);
    var k := ObservedIsTimed(debounce, probes, id, d, now);
    assert StableOver(probes + [p], id, Ready(d, Observed(debounce, id, d, now).since, kind), k, |probes|);
  }

  lemma StableFewer(few: map<Id, Ready>, readies: map<Id, Ready>, probes: seq<Probe>)
    requires Stable(readies, probes) && few.Items <= readies.Items
    ensures Stable(few, probes)
  {
    forall id | id in few ensures exists k, m :: StableOver(probes, id, few[id], k, m)
    {
      assert (id, few[id]) in few.Items;
    }
  }

  lemma StableWith(readies: map<Id, Ready>, probes: seq<Probe>, id: Id, r: Ready)
    requires Stable(readies, probes) && exists k, m :: StableOver(probes, id, r, k, m)
    ensures Stable(readies[id := r], probes)
  {
  }

  lemma ReadKeepsInv(s: State, id: Id, d: Digest, now: int)
    requires Inv(s) && id in s.sources && id !in s.inFlight && !Known(s.sources[id], d)
    ensures Inv(Scanned(s, id, Some(d), now))
  {
    var p := Probe(id, Some(d), now, false);
    StableAppends(s.inFlight, s.probes, p);
    StableAppends(s.pending, s.probes, p);
    var kept := if id in s.pending && s.pending[id].digest != d then s.pending - {id} else s.pending;
    StableFewer(kept, s.pending, s.probes + [p]);
    ObserveKeepsHistory(s.debounce, s.probes, id, d, now);
    var since := Observed(s.debounce, id, d, now).since;
    if now - since >= DEBOUNCE_MS {
      ReadyIsStable(s.debounce, s.probes, id, d, now, KindOf(s.sources[id]));
      StableWith(kept, s.probes + [p], id, Ready(d, since, KindOf(s.sources[id])));
    }
  }

  lemma ScanKeepsInv(s: State, id: Id, read: Option<Digest>, now: int)
    requires Inv(s) && id in s.sources && id !in s.inFlight
    ensures Inv(Scanned(s, id, read, now))
  {
    if read.Some? && !Known(s.sources[id], read.value) {
      ReadKeepsInv(s, id, read.value, now);
    } else {
      var p := Probe(id, read, now, read.Some?);
      StableAppends(s.inFlight, s.probes, p);
      StableAppends(s.pending, s.probes, p);
      TimersAppend(s.debounce, s.probes, p);
    }
  }

  lemma CompleteKeepsInv(s: State, job: Job, ok: bool)
    requires Inv(s) && job in s.jobs
    ensures Inv(Step(s, Complete(job, ok)))
  {
    StableFewer(s.inFlight - {job.id}, s.inFlight, s.probes);
    StableFewer(s.pending - {job.id}, s.pending, s.probes);
  }

  lemma RefreshKeepsInv(s: State, replacement: map<Id, Watched>)
    requires Inv(s)
    ensures Inv(Step(s, Refresh(replacement)))
  {
    StableFewer(s.pending - (s.sources.Keys - replacement.Keys), s.pending, s.probes);
  }

  lemma SubmitKeepsInv(s: State, id: Id, admitted: bool)
    requires Inv(s) && id in s.pending
    ensures Inv(Step(s, Submit(id, admitted)))
  {
    if id !in s.inFlight && admitted { StableWith(s.inFlight, s.probes, id, s.pending[id]); }
  }

  lemma StepKeepsInv(s: State, e: Event)
    requires Inv(s) && Enabled(s, e)
    ensures Inv(Step(s, e))
  {
    match e
    case Refresh(replacement) => RefreshKeepsInv(s, replacement);
    case Scan(id, read, now) => if id !in s.inFlight { ScanKeepsInv(s, id, read, now); }
    case Submit(id, admitted) => SubmitKeepsInv(s, id, admitted);
    case Complete(job, ok) => CompleteKeepsInv(s, job, ok);
    case Lost(_) =>
  }

  /** Every run, from any state the invariant holds in, keeps the invariant. */
  lemma {:induction false} EveryRunKeepsInv(s: State, es: seq<Event>)
    requires Inv(s)
    ensures Inv(Exec(s, es))
  {
    if es != [] {
      EveryRunKeepsInv(s, es[..|es| - 1]);
      var t := Exec(s, es[..|es| - 1]);
      if Enabled(t, es[|es| - 1]) { StepKeepsInv(t, es[|es| - 1]); }
    }
  }

  // ---- what it means --------------------------------------------------------

  /** In every run, whatever refreshes remove or re-add a source: its pending entry, while it is in flight, is absent or
      is what was submitted; it has at most one unanswered submission; and that submission is what is in flight. */
  lemma InFlightIsWhatWasSubmitted(es: seq<Event>)
    ensures var s := Exec(Initial, es);
      && (forall id | id in s.inFlight && id in s.pending :: s.pending[id] == s.inFlight[id])
      && (forall j | j in s.jobs :: s.jobs[j] == 1 && j.id in s.inFlight && s.inFlight[j.id] == j.ready)
      && (forall i, j | i in s.jobs && j in s.jobs && i.id == j.id :: i == j)
  {
    EveryRunKeepsInv(Initial, es);
  }

  /** An answer on the fields it touches. */
  lemma CompletedIsSubmitted(s: State, job: Job, ok: bool)
    requires Frozen(s.pending, s.inFlight) && job.id in s.inFlight && s.inFlight[job.id] == job.ready
    ensures var t := Completed(s, job.id, ok); var moved := ok && job.id in s.pending;
      && t.inFlight == s.inFlight - {job.id}
      && t.sources == (if moved && job.id in s.sources
                       then s.sources[job.id := Watched(true, Some(job.ready.digest))] else s.sources)
      && t.pending == (if ok then s.pending - {job.id} else s.pending)
      && (var timed := job.id in s.debounce && s.debounce[job.id] == Seen(job.ready.digest, job.ready.since);
          t.debounce == if moved && timed then s.debounce - {job.id} else s.debounce)
  {
  }

  /** In every run a successful answer moves only its own source, and only to the digest that was submitted; if the
      entry or the source is gone the baselines stay as they are. A failed answer changes nothing but the flight. */
  lemma BaselineIsWhatWasSubmitted(es: seq<Event>, job: Job, ok: bool)
    requires job in Exec(Initial, es).jobs
    ensures var s := Exec(Initial, es); var t := Step(s, Complete(job, ok)); var moved := ok && job.id in s.pending;
      && t.inFlight == s.inFlight - {job.id}
      && t.sources == (if moved && job.id in s.sources
                       then s.sources[job.id := Watched(true, Some(job.ready.digest))] else s.sources)
      && t.pending == (if ok then s.pending - {job.id} else s.pending)
      && (var timed := job.id in s.debounce && s.debounce[job.id] == Seen(job.ready.digest, job.ready.since);
          t.debounce == if moved && timed then s.debounce - {job.id} else s.debounce)
  {
    EveryRunKeepsInv(Initial, es);
    var s := Exec(Initial, es);
    CompletedIsSubmitted(s.(jobs := s.jobs - multiset{job}), job, ok);
  }

  /** In every run, what is pending or in flight was read twice, at least the debounce window apart, with no other
      digest read in between except the source's baseline. */
  lemma ReadyWasStable(es: seq<Event>, id: Id)
    ensures var s := Exec(Initial, es);
      && (id in s.pending ==> exists k, m :: StableOver(s.probes, id, s.pending[id], k, m))
      && (id in s.inFlight ==> exists k, m :: StableOver(s.probes, id, s.inFlight[id], k, m))
  {
    EveryRunKeepsInv(Initial, es);
  }

  /** A new digest resets the timer: after a read, a timer that is still running is for the digest just read, unless
      the read was the known baseline and a timer was running for something else. */
  lemma TimerFollowsTheRead(s: State, id: Id, d: Digest, now: int)
    requires id in s.sources && id !in s.inFlight
    ensures var t := Scanned(s, id, Some(d), now);
      (id in t.debounce ==> t.debounce[id].digest == d) <==>
      !(Known(s.sources[id], d) && id in s.debounce && s.debounce[id].digest != d)
  {
  }

  /** Every probe of the source from `k` to `m` read this digest. */
  predicate OnlyRead(probes: seq<Probe>, id: Id, d: Digest, k: int, m: int)
  {
    forall i | 0 <= i < |probes| && k <= i <= m :: probes[i].id == id ==> probes[i].read == Some(d)
  }

  /** Between `k` and `m` a probe of the source failed, or read its baseline and that is another digest. */
  predicate Disturbed(probes: seq<Probe>, id: Id, d: Digest, k: int, m: int)
  {
    exists i | 0 <= i < |probes| && k < i < m ::
      probes[i].id == id && (probes[i].read.None? || (probes[i].known && probes[i].read != Some(d)))
  }

  lemma StrictExactlyWhenUndisturbed(probes: seq<Probe>, id: Id, r: Ready, k: int, m: int)
    requires StableOver(probes, id, r, k, m)
    ensures OnlyRead(probes, id, r.digest, k, m) <==> !Disturbed(probes, id, r.digest, k, m)
  {
    if !OnlyRead(probes, id, r.digest, k, m) {
      var i :| 0 <= i < |probes| && k <= i <= m && probes[i].id == id && probes[i].read != Some(r.digest);
      assert k < i < m;
    }
  }

  /** A scan makes an observation ready in some run: its timer was started by probe `k`, at least the debounce window
      ago, and the digest was the only one read since, as the design has it, if and only if since then no probe of the
      source failed or read a baseline that is another digest. */
  lemma ReadyExactlyWhenUndisturbed(es: seq<Event>, id: Id, d: Digest, now: int) returns (k: int)
    requires var s := Exec(Initial, es);
      && id in s.sources && id !in s.inFlight && !Known(s.sources[id], d)
      && now - Observed(s.debounce, id, d, now).since >= DEBOUNCE_MS
    ensures var s := Exec(Initial, es); var t := Step(s, Scan(id, Some(d), now)); var m := |s.probes|;
      && id in t.pending && t.pending[id].digest == d && StableOver(t.probes, id, t.pending[id], k, m)
      && (OnlyRead(t.probes, id, d, k, m) <==> !Disturbed(t.probes, id, d, k, m))
  {
    EveryRunKeepsInv(Initial, es);
    var s := Exec(Initial, es);
    k := ObservedIsTimed(s.debounce, s.probes, id, d, now);
    var probes := s.probes + [Probe(id, Some(d), now, false)];
    var r := Ready(d, Observed(s.debounce, id, d, now).since, KindOf(s.sources[id]));
    assert StableOver(probes, id, r, k, |s.probes|);
    StrictExactlyWhenUndisturbed(probes, id, r, k, |s.probes|);
  }

  function UndoneEdit(id: Id, edit: Digest, base: Digest, made: int, undone: int, again: int): seq<Event>
  {
    [Refresh(map[id := Watched(true, Some(base))]), Scan(id, Some(edit), made), Scan(id, Some(base), undone),
     Scan(id, Some(edit), again)]
  }

  /** So an edit that is undone and made again is ready at once, for every pair of contents and at all times with the
      window between the first and the last: no matter how long the baseline was back. */
  lemma UndoneEditIsReadyAtOnce(id: Id, edit: Digest, base: Digest, made: int, undone: int, again: int)
    requires edit != base && made <= undone <= again && again - made >= DEBOUNCE_MS
    ensures var s := Exec(Initial, UndoneEdit(id, edit, base, made, undone, again));
      && id in s.pending && s.pending[id] == Ready(edit, made, LiveEdit)
      && s.probes == [Probe(id, Some(edit), made, false), Probe(id, Some(base), undone, true),
                      Probe(id, Some(edit), again, false)]
      && Disturbed(s.probes, id, edit, 0, 2) && !OnlyRead(s.probes, id, edit, 0, 2)
  {
    var w := Watched(true, Some(base));
    var e1, e2 := Refresh(map[id := w]), Scan(id, Some(edit), made);
    var e3, e4 := Scan(id, Some(base), undone), Scan(id, Some(edit), again);
    var p1, p2 := Probe(id, Some(edit), made, false), Probe(id, Some(base), undone, true);
    ExecFour(e1, e2, e3, e4);
    var s1 := Step(Initial, e1);
    assert s1 == Initial.(sources := map[id := w]);
    var s2 := Step(s1, e2);
    assert s2 == s1.(debounce := map[id := Seen(edit, made)], probes := [p1]);
    var s3 := Step(s2, e3);
    assert s3 == s2.(probes := [p1, p2]);
    var s4 := Step(s3, e4);
    assert s4.probes == [p1, p2, Probe(id, Some(edit), again, false)];
    assert s4.probes[1].id == id && s4.probes[1].known;
  }

  lemma ExecFour(a: Event, b: Event, c: Event, d: Event)
    requires Enabled(Initial, a) && Enabled(Step(Initial, a), b) && Enabled(Step(Step(Initial, a), b), c)
    requires Enabled(Step(Step(Step(Initial, a), b), c), d)
    ensures Exec(Initial, [a, b, c, d]) == Step(Step(Step(Step(Initial, a), b), c), d)
  {
    ExecStep(Initial, [], a);
    assert [] + [a] == [a];
    ExecStep(Initial, [a], b);
    assert [a] + [b] == [a, b];
    ExecStep(Initial, [a, b], c);
    assert [a, b] + [c] == [a, b, c];
    ExecStep(Initial, [a, b, c], d);
    assert [a, b, c] + [d] == [a, b, c, d];
  }

  // ---- what a turn of the scan comes to --------------------------------------

  /** A turn of the scan touches one source, keeps the registered ones, and does nothing to a source in flight. */
  lemma ScanTouchesOneSource(s: State, id: Id, read: Option<Digest>, now: int, other: Id)
    requires id in s.sources && other != id
    ensures var t := Scanned(s, id, read, now);
      && t.sources == s.sources && t.inFlight == s.inFlight && t.jobs == s.jobs
      && (other in t.pending <==> other in s.pending) && (other in s.pending ==> t.pending[other] == s.pending[other])
      && (other in t.debounce <==> other in s.debounce)
      && (other in s.debounce ==> t.debounce[other] == s.debounce[other])
      && (id in s.inFlight ==> t == s)
      && (id !in s.inFlight ==>
            var known := s.sources[id].initialComplete && read.Some? && s.sources[id].baseline == read;
            t.probes == s.probes + [Probe(id, read, now, known)])
  {
  }

  /** A failed read keeps what is ready, and restarts the debounce of what is not. */
  lemma FailedReadForgetsTheTimer(s: State, id: Id, now: int)
    requires id in s.sources && id !in s.inFlight
    ensures var t := Scanned(s, id, None, now);
      && t.pending == s.pending
      && (id in t.debounce <==> id in s.debounce && id in s.pending)
      && (id in t.debounce ==> t.debounce[id] == s.debounce[id])
  {
  }

  /** After a read, what is pending is what was read. It is ready exactly when it was ready as such before, or it is not
      the known baseline and has been timed for the whole window; it is then a live edit exactly when the first preview
      was completed before. A known baseline is left alone, and any other read is timed from its first in a row. */
  lemma ReadIsReadyExactlyWhenTimed(s: State, id: Id, d: Digest, now: int)
    requires id in s.sources && id !in s.inFlight
    ensures var t := Scanned(s, id, Some(d), now);
      var known := s.sources[id].initialComplete && s.sources[id].baseline == Some(d);
      var kept := id in s.pending && s.pending[id].digest == d;
      var running := id in s.debounce && s.debounce[id].digest == d && s.debounce[id].since <= now;
      var timed := running && now - s.debounce[id].since >= DEBOUNCE_MS;
      && (id in t.pending ==> t.pending[id].digest == d)
      && (id in t.pending <==> kept || (!known && timed))
      && (!known && timed ==>
            && t.pending[id].since == s.debounce[id].since
            && (t.pending[id].kind.LiveEdit? <==> s.sources[id].initialComplete))
      && (known ==> t.debounce == s.debounce)
      && (!known ==> id in t.debounce && t.debounce[id] == Seen(d, if running then s.debounce[id].since else now))
  {
  }

  /** One source is scanned again and again, and reads the same every time. */
  function Reads(id: Id, d: Digest, times: seq<int>): seq<Event>
  {
    seq(|times|, i requires 0 <= i < |times| => Scan(id, Some(d), times[i]))
  }

  predicate InOrder(times: seq<int>) { forall i, j | 0 <= i < j < |times| :: times[i] <= times[j] }

  lemma {:induction false} SameReadsKeepTheTimer(s: State, id: Id, d: Digest, times: seq<int>)
    requires id in s.sources && id !in s.inFlight && !Known(s.sources[id], d) && InOrder(times) && times != []
    ensures var t := Exec(s, Reads(id, d, times));
      && t.sources == s.sources && t.inFlight == s.inFlight
      && id in t.debounce && t.debounce[id].digest == d && t.debounce[id].since <= times[0]
  {
    var n := |times| - 1;
    var events := Reads(id, d, times);
    assert events[..n] == Reads(id, d, times[..n]);
    if n == 0 {
      assert events[..0] == [];
    } else {
      SameReadsKeepTheTimer(s, id, d, times[..n]);
    }
  }

  /** What reads the same at every turn for the whole window is ready: nothing that is stable is left out. */
  lemma StableReadBecomesReady(s: State, id: Id, d: Digest, times: seq<int>)
    requires id in s.sources && id !in s.inFlight && !Known(s.sources[id], d) && InOrder(times) && |times| > 1
    requires times[|times| - 1] - times[0] >= DEBOUNCE_MS
    ensures var t := Exec(s, Reads(id, d, times)); id in t.pending && t.pending[id].digest == d
  {
    var n := |times| - 1;
    var events := Reads(id, d, times);
    assert events[..n] == Reads(id, d, times[..n]);
    SameReadsKeepTheTimer(s, id, d, times[..n]);
    var before := Exec(s, events[..n]);
    ReadIsReadyExactlyWhenTimed(before, id, d, times[n]);
  }

  /** A pending entry is submitted exactly when its source is not in flight and the worker admits it. */
  lemma SubmittedExactlyWhenAdmitted(es: seq<Event>, id: Id, admitted: bool)
    requires id in Exec(Initial, es).pending
    ensures var s := Exec(Initial, es); var t := Step(s, Submit(id, admitted));
      && (Job(id, s.pending[id]) in t.jobs <==> Job(id, s.pending[id]) in s.jobs || (id !in s.inFlight && admitted))
      && (id in t.inFlight <==> id in s.inFlight || admitted)
      && t.pending == s.pending && t.debounce == s.debounce && t.sources == s.sources
  {
    EveryRunKeepsInv(Initial, es);
  }

  /** A refresh forgets what was pending or timed for sources that went away, and nothing else. */
  lemma RefreshForgetsExactly(s: State, replacement: map<Id, Watched>, id: Id)
    ensures var t := Step(s, Refresh(replacement)); var gone := id in s.sources && id !in replacement;
      && t.sources == replacement && t.inFlight == s.inFlight && t.jobs == s.jobs
      && (id in t.pending <==> id in s.pending && !gone) && (id in t.pending ==> t.pending[id] == s.pending[id])
      && (id in t.debounce <==> id in s.debounce && !gone) && (id in t.debounce ==> t.debounce[id] == s.debounce[id])
  {
  }

  predicate Stranded(s: State, id: Id) { id in s.inFlight && forall j | j in s.jobs :: j.id != id }

  lemma StrandedStays(s: State, id: Id, e: Event)
    requires Stranded(s, id) && Enabled(s, e)
    ensures Stranded(Step(s, e), id)
  {
  }

  lemma {:induction false} EveryRunKeepsStranded(s: State, id: Id, es: seq<Event>)
    requires Stranded(s, id)
    ensures Stranded(Exec(s, es), id)
  {
    if es != [] {
      EveryRunKeepsStranded(s, id, es[..|es| - 1]);
      var t := Exec(s, es[..|es| - 1]);
      if Enabled(t, es[|es| - 1]) { StrandedStays(t, id, es[|es| - 1]); }
    }
  }

  /** In every run a submission whose join fails keeps its source in flight for good, whatever follows: the source is
      never scanned or submitted again. */
  lemma LostSourceStaysInFlight(es: seq<Event>, job: Job, after: seq<Event>)
    requires job in Exec(Initial, es).jobs
    ensures var t := Exec(Step(Exec(Initial, es), Lost(job)), after);
      && job.id in t.inFlight && (forall j | j in t.jobs :: j.id != job.id)
      && (forall read, now | job.id in t.sources :: Scanned(t, job.id, read, now) == t)
      && (forall admitted | job.id in t.pending :: Step(t, Submit(job.id, admitted)) == t)
  {
    InFlightIsWhatWasSubmitted(es);
    var s := Step(Exec(Initial, es), Lost(job));
    assert Stranded(s, job.id);
    EveryRunKeepsStranded(s, job.id, after);
  }

  lemma ExecStep(s: State, es: seq<Event>, e: Event)
    ensures var t := Exec(s, es);
      Exec(s, es + [e]) == if Enabled(t, e) then Step(t, e) else t
  {
    assert (es + [e])[..|es|] == es;
  }

  // ---- the supervisor ---------------------------------------------------------

  function ScanEvents(ids: seq<Id>, found: seq<Option<Digest>>, now: int): seq<Event>
    requires |ids| == |found|
  {
    seq(|ids|, i requires 0 <= i < |ids| => Scan(ids[i], found[i], now))
  }

  function SubmitEvents(ids: seq<Id>, admitted: seq<bool>): seq<Event>
    requires |ids| == |admitted|
  {
    seq(|ids|, i requires 0 <= i < |ids| => Submit(ids[i], admitted[i]))
  }

  /** The keys of a map in some order, each once. */
  predicate Lists(ids: seq<Id>, keys: set<Id>) { multiset(ids) == multiset(keys) }

  lemma ListedExactly(ids: seq<Id>, keys: set<Id>)
    requires Lists(ids, keys)
    ensures forall id :: id in ids <==> id in keys
  {
    forall id ensures id in ids <==> id in keys
    {
      assert id in multiset(ids) <==> id in multiset(keys);
    }
  }

  function Removed(ids: seq<Id>, replacement: map<Id, Watched>): set<Id>
  {
    set id | id in ids && id !in replacement
  }

  lemma RemovedAll(ids: seq<Id>, keys: set<Id>, replacement: map<Id, Watched>)
    requires Lists(ids, keys)
    ensures Removed(ids, replacement) == keys - replacement.Keys
  {
    ListedExactly(ids, keys);
    forall id ensures id in Removed(ids, replacement) <==> id in keys - replacement.Keys {}
  }

  class Supervisor {
    var sources: map<Id, Watched>
    var debounce: map<Id, Seen>
    var pending: map<Id, Ready>
    var inFlight: set<Id>
    var jobs: multiset<Job>
    ghost var submitted: map<Id, Ready>
    ghost var probes: seq<Probe>

    ghost predicate Valid() reads this { submitted.Keys == inFlight }

    ghost function Snapshot(): State
      reads this
    {
      State(sources, debounce, pending, submitted, jobs, probes)
    }

    constructor ()
      ensures Valid() && Snapshot() == Initial
    {
      sources, debounce, pending, inFlight, jobs := map[], map[], map[], {}, multiset{};
      submitted, probes := map[], [];
    }

    /** Restarts the timer on a new digest or a clock that went back; reports when the window has passed. */
    method Observe(id: Id, d: Digest, now: int) returns (stable: Option<int>)
      modifies this`debounce
      ensures debounce == old(debounce)[id := Observed(old(debounce), id, d, now)]
      ensures stable == if now - debounce[id].since >= DEBOUNCE_MS then Some(debounce[id].since) else None
    {
      if id !in debounce {
        debounce := debounce[id := Seen(d, now)];
      }
      if debounce[id].digest != d || now < debounce[id].since {
        debounce := debounce[id := Seen(d, now)];
        return None;
      }
      assert debounce == debounce[id := debounce[id]];
      stable := if now - debounce[id].since >= DEBOUNCE_MS then Some(debounce[id].since) else None;
    }

    method ScanOne(id: Id, read: Option<Digest>, now: int)
      requires Valid() && id in sources
      modifies this`debounce, this`pending, this`probes
      ensures Valid() && Snapshot() == Step(old(Snapshot()), Scan(id, read, now))
    {
      if id in inFlight {
        return;
      }
      probes := probes + [Probe(id, read, now, read.Some? && Known(sources[id], read.value))];
      if read.None? {
        if id !in pending {
          debounce := debounce - {id};
        }
        return;
      }
      var d := read.value;
      if id in pending && pending[id].digest != d {
        pending := pending - {id};
      }
      if sources[id].initialComplete && sources[id].baseline == Some(d) {
        return;
      }
      var stable := Observe(id, d, now);
      if stable.Some? {
        pending := pending[id := Ready(d, stable.value, KindOf(sources[id]))];
      }
    }

    /** One pass over every source: exactly the scan of each, in order. */
    method ScanSources(ids: seq<Id>, found: seq<Option<Digest>>, now: int)
      requires Valid() && |ids| == |found| && Lists(ids, sources.Keys)
      modifies this`debounce, this`pending, this`probes
      ensures Valid() && Snapshot() == Exec(old(Snapshot()), ScanEvents(ids, found, now))
    {
      ListedExactly(ids, sources.Keys);
      ghost var events := ScanEvents(ids, found, now);
      for i := 0 to |ids|
        invariant Valid() && Snapshot() == Exec(old(Snapshot()), events[..i])
      {
        ExecStep(old(Snapshot()), events[..i], events[i]);
        assert events[..i + 1] == events[..i] + [events[i]];
        ScanOne(ids[i], found[i], now);
      }
      assert events[..|ids|] == events;
    }

    method SubmitOne(id: Id, admitted: bool)
      requires Valid() && id in pending
      modifies this`inFlight, this`jobs, this`submitted
      ensures Valid() && Snapshot() == Step(old(Snapshot()), Submit(id, admitted))
    {
      if id !in inFlight && admitted {
        inFlight := inFlight + {id};
        submitted := submitted[id := pending[id]];
        jobs := jobs + multiset{Job(id, pending[id])};
      }
    }

    /** Submits every pending entry whose source is not in flight and that the worker admits. */
    method SubmitPending(ids: seq<Id>, admitted: seq<bool>)
      requires Valid() && |ids| == |admitted| && Lists(ids, pending.Keys)
      modifies this`inFlight, this`jobs, this`submitted
      ensures Valid() && Snapshot() == Exec(old(Snapshot()), SubmitEvents(ids, admitted))
    {
      ListedExactly(ids, pending.Keys);
      ghost var events := SubmitEvents(ids, admitted);
      for i := 0 to |ids|
        invariant Valid() && Snapshot() == Exec(old(Snapshot()), events[..i])
      {
        ExecStep(old(Snapshot()), events[..i], events[i]);
        assert events[..i + 1] == events[..i] + [events[i]];
        SubmitOne(ids[i], admitted[i]);
      }
      assert events[..|ids|] == events;
    }

    method Acknowledge(id: Id, ready: Ready)
      modifies this`debounce
      ensures debounce == Acknowledged(old(debounce), id, ready)
    {
      if id in debounce && debounce[id].digest == ready.digest && debounce[id].since == ready.since {
        debounce := debounce - {id};
      }
    }

    method Land(job: Job)
      requires Valid() && job in jobs
      modifies this`jobs, this`inFlight, this`submitted
      ensures Valid() && jobs == old(jobs) - multiset{job} && submitted == old(submitted) - {job.id}
    {
      jobs := jobs - multiset{job};
      inFlight := inFlight - {job.id};
      submitted := submitted - {job.id};
    }

    /** An answer arrives. The loop sees only the source and whether the worker succeeded. */
    method Answer(job: Job, ok: bool)
      requires Valid() && job in jobs
      modifies this
      ensures Valid() && Snapshot() == Step(old(Snapshot()), Complete(job, ok))
    {
      var id := job.id;
      Land(job);
      if !ok || id !in pending {
        return;
      }
      var ready := pending[id];
      pending := pending - {id};
      Acknowledge(id, ready);
      if id in sources {
        sources := sources[id := sources[id].(initialComplete := true, baseline := Some(ready.digest))];
      }
    }

    /** Drops the pending entry and the timer of every source that is no longer registered. */
    method ReplaceRegisteredSources(ids: seq<Id>, replacement: map<Id, Watched>)
      requires Valid() && Lists(ids, sources.Keys)
      modifies this`sources, this`debounce, this`pending
      ensures Valid() && Snapshot() == Step(old(Snapshot()), Refresh(replacement))
    {
      for i := 0 to |ids|
        invariant sources == old(sources)
        invariant pending == old(pending) - Removed(ids[..i], replacement)
        invariant debounce == old(debounce) - Removed(ids[..i], replacement)
      {
        assert ids[..i + 1] == ids[..i] + [ids[i]];
        if ids[i] !in replacement {
          assert Removed(ids[..i + 1], replacement) == Removed(ids[..i], replacement) + {ids[i]};
          pending := pending - {ids[i]};
          debounce := debounce - {ids[i]};
        } else {
          assert Removed(ids[..i + 1], replacement) == Removed(ids[..i], replacement);
        }
      }
      assert ids[..|ids|] == ids;
      RemovedAll(ids, sources.Keys, replacement);
      sources := replacement;
    }
  }
}
