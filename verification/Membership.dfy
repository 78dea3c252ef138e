/** The backward walk over membership history (`reconcile_membership` in crates/contextd/src/pairing.rs): from the
    endpoint a server reports, fetch one event after another, each naming its parent state, until the locally
    accepted state is reached. Digests are opaque numbers; decoding is given. */
module Membership {
  import opened Options

  type Hash = int

  datatype Endpoint = Endpoint(state: Hash, controlEpoch: nat, keyEpoch: nat)

  /** A decoded history event: it leads from one state to the next. */
  datatype Event = Event(parent: Hash, successor: Hash, body: int)

  const MAX_EVENTS: nat := 4096
  const MAX_BYTES: nat := 64 * 1024 * 1024

  /** What one fetch brings back: nothing, or so many bytes that decode to an event or do not. */
  datatype Fetched = Unavailable | Missing | Raw(size: nat, event: Option<Event>)

  datatype Walked = Found(events: seq<Event>) | BrokenChain | TransportFailure

  /** The server may answer each fetch differently; `fetch(k, h)` is the answer to the k-th. */
  type Fetch = (nat, Hash) -> Fetched

  // ----- What is looked for -----

  /** `events`, oldest first, lead from state `first` to state `last` without a gap. */
  predicate Linked(events: seq<Event>, first: Hash, last: Hash)
  {
    if events == [] then first == last
    else
      var newest := events[|events| - 1];
      newest.successor == last && Linked(events[..|events| - 1], first, newest.parent)
  }

  /** The linking in plain words. */
  lemma {:induction false} LinkedMeans(events: seq<Event>, first: Hash, last: Hash)
    requires Linked(events, first, last) && events != []
    ensures events[0].parent == first && events[|events| - 1].successor == last
    ensures forall i | 0 < i < |events| :: events[i].parent == events[i - 1].successor
  {
    var n := |events| - 1;
    if n > 0 {
      LinkedMeans(events[..n], first, events[n].parent);
      forall i | 0 < i < |events| ensures events[i].parent == events[i - 1].successor {
        if i < n {
          assert events[..n][i].parent == events[..n][i - 1].successor;
        }
      }
    }
  }

  /** Every event is what a fixed store holds under its successor's address. */
  ghost predicate Stored(store: Hash -> Fetched, events: seq<Event>)
  {
    forall i | 0 <= i < |events| ::
      store(events[i].successor).Raw? && store(events[i].successor).event == Some(events[i])
  }

  ghost function StoredBytes(store: Hash -> Fetched, events: seq<Event>): nat
    requires Stored(store, events)
  {
    if events == [] then 0
    else StoredBytes(store, events[..|events| - 1]) + store(events[|events| - 1].successor).size
  }

  // ----- The walk -----

  function Extend(walked: Walked, newer: seq<Event>): Walked
  {
    if walked.Found? then Found(walked.events + newer) else walked
  }

  /** The walk from `address` back to `local` after `k` fetches of `bytes` bytes. */
  function WalkBack(fetch: Fetch, local: Hash, address: Hash, k: nat, bytes: nat): Walked
    decreases MAX_EVENTS - k
  {
    if address == local then Found([])
    else if MAX_EVENTS <= k then BrokenChain
    else
      match fetch(k, address)
      case Unavailable => TransportFailure
      case Missing => BrokenChain
      case Raw(size, decoded) =>
        if MAX_BYTES < bytes + size then BrokenChain
        else if decoded.None? || decoded.value.successor != address then BrokenChain
        else Extend(WalkBack(fetch, local, decoded.value.parent, k + 1, bytes + size), [decoded.value])
  }

  function Reversed<T>(s: seq<T>): seq<T>
  {
    if s == [] then [] else [s[|s| - 1]] + Reversed(s[..|s| - 1])
  }

  lemma ExtendNothing(walked: Walked)
    ensures Extend(walked, []) == walked
  {
    if walked.Found? {
      assert walked.events + [] == walked.events;
    }
  }

  /** What the walk needs of an answer to go one step back. */
  predicate Usable(fetched: Fetched, address: Hash, bytes: nat)
  {
    fetched.Raw? && bytes + fetched.size <= MAX_BYTES && fetched.event.Some? && fetched.event.value.successor == address
  }

  lemma StepBack(fetch: Fetch, local: Hash, address: Hash, k: nat, bytes: nat, event: Event, newer: seq<Event>)
    requires address != local && k < MAX_EVENTS
    requires Usable(fetch(k, address), address, bytes) && fetch(k, address).event == Some(event)
    ensures Extend(WalkBack(fetch, local, address, k, bytes), newer)
         == Extend(WalkBack(fetch, local, event.parent, k + 1, bytes + fetch(k, address).size), [event] + newer)
  {
    var older := WalkBack(fetch, local, event.parent, k + 1, bytes + fetch(k, address).size);
    if older.Found? {
      assert older.events + [event] + newer == older.events + ([event] + newer);
    }
  }

  lemma WalkEnds(fetch: Fetch, local: Hash, address: Hash, k: nat, bytes: nat, newer: seq<Event>)
    requires address == local || MAX_EVENTS <= k || !Usable(fetch(k, address), address, bytes)
    ensures Extend(WalkBack(fetch, local, address, k, bytes), newer) ==
            if address == local then Found(newer)
            else if k < MAX_EVENTS && fetch(k, address).Unavailable? then TransportFailure
            else BrokenChain
  {
  }

  /** `objects`, newest first, are the answers that led the walk from `remote` back to `address`. */
  ghost predicate Led(fetch: Fetch, local: Hash, remote: Hash, objects: seq<Event>, address: Hash, bytes: nat)
  {
    if objects == [] then remote == address && bytes == 0
    else
      var n := |objects| - 1;
      var event := objects[n];
      var answer := fetch(n, event.successor);
      && n < MAX_EVENTS && event.successor != local && event.parent == address
      && answer.Raw? && answer.size <= bytes <= MAX_BYTES && answer.event == Some(event)
      && Led(fetch, local, remote, objects[..n], event.successor, bytes - answer.size)
  }

  lemma LedOn(fetch: Fetch, local: Hash, remote: Hash, objects: seq<Event>, address: Hash, bytes: nat, event: Event)
    requires Led(fetch, local, remote, objects, address, bytes) && address != local && |objects| < MAX_EVENTS
    requires Usable(fetch(|objects|, address), address, bytes) && fetch(|objects|, address).event == Some(event)
    ensures Led(fetch, local, remote, objects + [event], event.parent, bytes + fetch(|objects|, address).size)
  {
    assert (objects + [event])[..|objects|] == objects;
  }

  /** What is left of the walk, with what it has found so far put behind. */
  ghost function Rest(fetch: Fetch, local: Hash, objects: seq<Event>, address: Hash, bytes: nat): Walked
  {
    Extend(WalkBack(fetch, local, address, |objects|, bytes), Reversed(objects))
  }

  lemma RestIsSame(fetch: Fetch, local: Hash, older: seq<Event>, event: Event, before: nat, bytes: nat)
    requires event.successor != local && |older| < MAX_EVENTS
    requires Usable(fetch(|older|, event.successor), event.successor, before)
    requires fetch(|older|, event.successor).event == Some(event)
    requires bytes == before + fetch(|older|, event.successor).size
    ensures Rest(fetch, local, older, event.successor, before)
         == Rest(fetch, local, older + [event], event.parent, bytes)
  {
    StepBack(fetch, local, event.successor, |older|, before, event, Reversed(older));
    assert (older + [event])[..|older|] == older;
    assert Reversed(older + [event]) == [event] + Reversed(older);
  }

  /** What the walk still has to do decides it, followed by what it has. */
  lemma {:induction false} LedTo(fetch: Fetch, local: Hash, remote: Hash, objects: seq<Event>, address: Hash,
                                 bytes: nat)
    requires Led(fetch, local, remote, objects, address, bytes)
    ensures Rest(fetch, local, [], remote, 0) == Rest(fetch, local, objects, address, bytes)
  {
    if objects != [] {
      var n := |objects| - 1;
      var event := objects[n];
      var before := bytes - fetch(n, event.successor).size;
      LedTo(fetch, local, remote, objects[..n], event.successor, before);
      RestIsSame(fetch, local, objects[..n], event, before, bytes);
      assert objects[..n] + [event] == objects;
    }
  }

  lemma WalkStops(fetch: Fetch, local: Hash, remote: Hash, objects: seq<Event>, address: Hash, bytes: nat)
    requires Led(fetch, local, remote, objects, address, bytes)
    requires address == local || MAX_EVENTS <= |objects| || !Usable(fetch(|objects|, address), address, bytes)
    ensures WalkBack(fetch, local, remote, 0, 0) ==
            if address == local then Found(Reversed(objects))
            else if |objects| < MAX_EVENTS && fetch(|objects|, address).Unavailable? then TransportFailure
            else BrokenChain
  {
    ExtendNothing(WalkBack(fetch, local, remote, 0, 0));
    LedTo(fetch, local, remote, objects, address, bytes);
    WalkEnds(fetch, local, address, |objects|, bytes, Reversed(objects));
  }

  /** The loop of the source, newest event first, reversed at the end. */
  method Walk(local: Hash, remote: Hash, fetch: Fetch) returns (r: Walked, fetches: nat)
    ensures r == WalkBack(fetch, local, remote, 0, 0)
    ensures fetches <= MAX_EVENTS
  {
    var address, objects, bytes := remote, [], 0;
    fetches := 0;
    while address != local
      invariant fetches == |objects| <= MAX_EVENTS && 0 <= bytes
      invariant Led(fetch, local, remote, objects, address, bytes)
      decreases MAX_EVENTS - |objects|
    {
      if |objects| >= MAX_EVENTS {
        WalkStops(fetch, local, remote, objects, address, bytes);
        return BrokenChain, fetches;
      }
      var fetched := fetch(fetches, address);
      if fetched.Unavailable? {
        WalkStops(fetch, local, remote, objects, address, bytes);
        return TransportFailure, fetches + 1;
      }
      if fetched.Missing? || MAX_BYTES < bytes + fetched.size
         || fetched.event.None? || fetched.event.value.successor != address {
        WalkStops(fetch, local, remote, objects, address, bytes);
        return BrokenChain, fetches + 1;
      }
      LedOn(fetch, local, remote, objects, address, bytes, fetched.event.value);
      objects := objects + [fetched.event.value];
      fetches, bytes, address := fetches + 1, bytes + fetched.size, fetched.event.value.parent;
    }
    WalkStops(fetch, local, remote, objects, address, bytes);
    r := Found(Reversed(objects));
  }

  // ----- Soundness and completeness -----

  /** `events` are the answers to fetch `k` and the following ones, newest first. */
  predicate Answers(fetch: Fetch, k: nat, events: seq<Event>)
    decreases |events|
  {
    if events == [] then true
    else
      var newest := events[|events| - 1];
      && fetch(k, newest.successor).Raw? && fetch(k, newest.successor).event == Some(newest)
      && Answers(fetch, k + 1, events[..|events| - 1])
  }

  function AnswerBytes(fetch: Fetch, k: nat, events: seq<Event>): nat
    requires Answers(fetch, k, events)
    decreases |events|
  {
    if events == [] then 0
    else fetch(k, events[|events| - 1].successor).size + AnswerBytes(fetch, k + 1, events[..|events| - 1])
  }

  /** Whatever the server answers, a found chain leads from the local to the remote state, was fetched link by
      link, stays within both budgets and touches the local state only at its start. */
  lemma {:induction false} FoundChainIsSound(fetch: Fetch, local: Hash, address: Hash, k: nat, bytes: nat)
    requires k <= MAX_EVENTS && bytes <= MAX_BYTES && WalkBack(fetch, local, address, k, bytes).Found?
    ensures var events := WalkBack(fetch, local, address, k, bytes).events;
            && Linked(events, local, address)
            && Answers(fetch, k, events)
            && k + |events| <= MAX_EVENTS && bytes + AnswerBytes(fetch, k, events) <= MAX_BYTES
            && (forall i | 0 <= i < |events| :: events[i].successor != local)
    decreases MAX_EVENTS - k
  {
    if address != local {
      var answer := fetch(k, address);
      var event := answer.event.value;
      FoundChainIsSound(fetch, local, event.parent, k + 1, bytes + answer.size);
      var older := WalkBack(fetch, local, event.parent, k + 1, bytes + answer.size).events;
      var events := older + [event];
      assert events[..|events| - 1] == older;
    }
  }

  /** Over a store that does not change, a chain within both budgets is always found, from any point of it. */
  lemma {:induction false} ChainIsFound(store: Hash -> Fetched, local: Hash, address: Hash, k: nat, bytes: nat,
                                        chain: seq<Event>)
    requires Linked(chain, local, address) && Stored(store, chain)
    requires k + |chain| <= MAX_EVENTS && bytes + StoredBytes(store, chain) <= MAX_BYTES
    ensures WalkBack((i, h) => store(h), local, address, k, bytes).Found?
    decreases |chain|
  {
    if address != local {
      var n := |chain| - 1;
      assert store(chain[n].successor).event == Some(chain[n]);
      ChainIsFound(store, local, chain[n].parent, k + 1, bytes + store(address).size, chain[..n]);
    }
  }

  lemma {:induction false} AnswersOfFixedStore(store: Hash -> Fetched, k: nat, events: seq<Event>)
    requires Answers((i, h) => store(h), k, events)
    ensures Stored(store, events)
    ensures StoredBytes(store, events) == AnswerBytes((i, h) => store(h), k, events)
    decreases |events|
  {
    if events != [] {
      var n := |events| - 1;
      AnswersOfFixedStore(store, k + 1, events[..n]);
      forall i | 0 <= i < |events|
        ensures store(events[i].successor).Raw? && store(events[i].successor).event == Some(events[i])
      {
        if i < n {
          assert events[i] == events[..n][i];
        }
      }
    }
  }

  ghost predicate ChainWithinBudget(store: Hash -> Fetched, local: Hash, remote: Hash, chain: seq<Event>)
  {
    && Linked(chain, local, remote) && Stored(store, chain)
    && |chain| <= MAX_EVENTS && StoredBytes(store, chain) <= MAX_BYTES
  }

  /** Over a fixed store the walk succeeds exactly when some chain within both budgets joins the two states. */
  lemma WalkIsComplete(store: Hash -> Fetched, local: Hash, remote: Hash)
    ensures WalkBack((i, h) => store(h), local, remote, 0, 0).Found?
        <==> exists chain :: ChainWithinBudget(store, local, remote, chain)
  {
    var fetch: Fetch := (i, h) => store(h);
    var walked := WalkBack(fetch, local, remote, 0, 0);
    if walked.Found? {
      FoundChainIsSound(fetch, local, remote, 0, 0);
      AnswersOfFixedStore(store, 0, walked.events);
      assert ChainWithinBudget(store, local, remote, walked.events);
    }
    if chain :| ChainWithinBudget(store, local, remote, chain) {
      ChainIsFound(store, local, remote, 0, 0, chain);
    }
  }

  /** The walk got as far as this address and the next fetch brought nothing. */
  ghost predicate CutOff(fetch: Fetch, local: Hash, remote: Hash, objects: seq<Event>, address: Hash, bytes: nat)
  {
    && Led(fetch, local, remote, objects, address, bytes) && address != local && |objects| < MAX_EVENTS
    && fetch(|objects|, address).Unavailable?
  }

  lemma {:induction false} CutOffSomewhere(fetch: Fetch, local: Hash, remote: Hash, objects: seq<Event>, address: Hash,
                                           bytes: nat)
    requires Led(fetch, local, remote, objects, address, bytes) && |objects| <= MAX_EVENTS
    requires WalkBack(fetch, local, address, |objects|, bytes).TransportFailure?
    ensures exists os, a, b :: CutOff(fetch, local, remote, os, a, b)
    decreases MAX_EVENTS - |objects|
  {
    if fetch(|objects|, address).Unavailable? {
      assert CutOff(fetch, local, remote, objects, address, bytes);
    } else {
      var event := fetch(|objects|, address).event.value;
      LedOn(fetch, local, remote, objects, address, bytes, event);
      CutOffSomewhere(fetch, local, remote, objects + [event], event.parent, bytes + fetch(|objects|, address).size);
    }
  }

  /** The walk fails for want of an answer exactly when everything up to some fetch linked up and that fetch was not
      answered; every other failure is a broken chain. */
  lemma FailsForWantOfAnAnswerExactly(fetch: Fetch, local: Hash, remote: Hash)
    ensures WalkBack(fetch, local, remote, 0, 0).TransportFailure? <==>
            exists objects, address, bytes :: CutOff(fetch, local, remote, objects, address, bytes)
  {
    if WalkBack(fetch, local, remote, 0, 0).TransportFailure? {
      CutOffSomewhere(fetch, local, remote, [], remote, 0);
    }
    if objects, address, bytes :| CutOff(fetch, local, remote, objects, address, bytes) {
      WalkStops(fetch, local, remote, objects, address, bytes);
    }
  }
}
