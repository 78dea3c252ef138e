/** The part of the vault that device revocation uses (crates/core/src/vault/revocation.rs and membership.rs):
    each function is one database transaction, `None` when it fails and changes nothing. Signature checking and
    key opening are the deterministic predicates of a `Crypto` value. */
module RevocationVault {
  import opened Membership
  import opened Options

  type OpId = int
  type DeviceId = int

  /** The signed artifacts of a revocation: statement, transition and signature. */
  datatype Control = Control(op: OpId, target: DeviceId, parent: Endpoint, successorState: Hash, body: int)

  /** What is stored before the first hosted mutation: the artifacts and the identity that made them. */
  datatype Intent = Intent(identity: int, control: Control)

  datatype Receipt = Receipt(op: OpId, object: Event, parent: Endpoint, successor: Endpoint)

  datatype Disposition =
    | Prepared | Submitting | Unconfirmed | Accepted(receipt: Receipt) | Conflict | CanceledBeforeSend

  datatype Coordination = Coordination(intent: Intent, sendCanceled: bool, disposition: Disposition)

  datatype History = History(events: seq<Event>, endpoint: Endpoint)

  /** The accepted history, the control records by control epoch, and the activated endpoint. */
  datatype Ledger = Ledger(history: Option<History>, controls: map<nat, Control>, activation: Option<Endpoint>)

  datatype VaultState = VaultState(ledger: Ledger, intents: map<OpId, Coordination>)

  datatype Crypto = Crypto(
    genuine: History -> bool,            // the whole history verifies up to its endpoint
    lawful: (Control, History) -> bool,  // the transition verifies against the state the history ends in
    openable: History -> bool,           // this device holds the current epoch's keys
    size: Event -> nat)                  // the bytes of an event's evidence

  function EventOf(c: Control): Event { Event(c.parent.state, c.successorState, c.body) }

  function SuccessorOf(c: Control): Endpoint
  {
    Endpoint(c.successorState, c.parent.controlEpoch + 1, c.parent.keyEpoch + 1)
  }

  function EpochOf(c: Control): nat { c.parent.controlEpoch + 1 }

  function ExpectedReceipt(c: Control): Receipt { Receipt(c.op, EventOf(c), c.parent, SuccessorOf(c)) }

  // ----- Coordination of one intent -----

  type Intents = map<OpId, Coordination>

  /** Intents are filed under their own id, and what is accepted is the receipt expected for the intent. */
  predicate WellKept(intents: Intents)
  {
    forall op | op in intents ::
      && intents[op].intent.control.op == op
      && (intents[op].disposition.Accepted? ==>
            intents[op].disposition.receipt == ExpectedReceipt(intents[op].intent.control))
  }

  function Marked(intents: Intents, op: OpId, d: Disposition): Intents
    requires op in intents
  {
    intents[op := intents[op].(disposition := d)]
  }

  predicate Sendable(c: Coordination)
  {
    !c.sendCanceled && (c.disposition.Prepared? || c.disposition.Unconfirmed?)
  }

  function BeginSubmission(intents: Intents, op: OpId): Option<Intents>
  {
    if op !in intents then None
    else if Sendable(intents[op]) then Some(Marked(intents, op, Submitting))
    else Some(intents)
  }

  function MarkUnconfirmed(intents: Intents, op: OpId): Option<Intents>
  {
    if op !in intents then None
    else if intents[op].disposition.Submitting? then Some(Marked(intents, op, Unconfirmed))
    else Some(intents)
  }

  function MarkConflict(intents: Intents, op: OpId): Option<Intents>
  {
    if op !in intents then None
    else
      var d := intents[op].disposition;
      if d.Prepared? || d.Submitting? || d.Unconfirmed? then Some(Marked(intents, op, Conflict))
      else Some(intents)
  }

  function CancelSubmission(intents: Intents, op: OpId): Option<Intents>
  {
    if op !in intents then None
    else
      var d := intents[op].disposition;
      var after := if d.Prepared? then CanceledBeforeSend
                   else if d.Submitting? || d.Unconfirmed? then Unconfirmed
                   else d;
      Some(intents[op := intents[op].(disposition := after, sendCanceled := true)])
  }

  function RecoverSubmissions(intents: Intents): Intents
  {
    map op | op in intents ::
      if intents[op].disposition.Submitting? then intents[op].(disposition := Unconfirmed) else intents[op]
  }

  function AcceptReceipt(intents: Intents, op: OpId, receipt: Receipt): Option<Intents>
  {
    if op !in intents || receipt != ExpectedReceipt(intents[op].intent.control) then None
    else
      match intents[op].disposition
      case Accepted(existing) => if existing == receipt then Some(intents) else None
      case Conflict => None
      case _ => Some(Marked(intents, op, Accepted(receipt)))
  }

  // ----- History, control records, activation -----

  function ReadHistory(crypto: Crypto, l: Ledger): Option<History>
  {
    if l.history.Some? && crypto.genuine(l.history.value) then l.history else None
  }

  /** The newest control record, if there is one, must be the state the history ends in. */
  predicate ControlsEndAt(controls: map<nat, Control>, end: Endpoint)
  {
    controls != map[] ==>
      && end.controlEpoch in controls
      && (forall epoch | epoch in controls :: epoch <= end.controlEpoch)
      && SuccessorOf(controls[end.controlEpoch]) == end
  }

  function CommitControl(crypto: Crypto, l: Ledger, record: Control, current: History): Option<Ledger>
  {
    var epoch := EpochOf(record);
    if epoch in l.controls then (if l.controls[epoch] == record then Some(l) else None)
    else if !crypto.lawful(record, current) || !ControlsEndAt(l.controls, current.endpoint) then None
    else Some(l.(controls := l.controls[epoch := record]))
  }

  /** The bytes of some events' evidence. */
  function Bytes(crypto: Crypto, events: seq<Event>): nat
  {
    if events == [] then 0 else Bytes(crypto, events[..|events| - 1]) + crypto.size(events[|events| - 1])
  }

  lemma BytesOfOne(crypto: Crypto, event: Event)
    ensures Bytes(crypto, [event]) == crypto.size(event)
  {
    assert [event][..0] == [];
  }

  function AcceptExtension(crypto: Crypto, l: Ledger, expected: Endpoint, successor: Endpoint, added: seq<Event>)
    : Option<Ledger>
  {
    var read := ReadHistory(crypto, l);
    if read.None? || added == [] || MAX_EVENTS < |added| || MAX_BYTES < Bytes(crypto, added) then None
    else if added[0].parent != expected.state || added[|added| - 1].successor != successor.state then None
    else
      var h := read.value;
      if h.endpoint == successor then
        if |added| <= |h.events| && h.events[|h.events| - |added|..] == added
           && crypto.genuine(History(h.events[..|h.events| - |added|], expected))
        then Some(l) else None
      else if h.endpoint != expected then None
      else
        var longer := History(h.events + added, successor);
        if crypto.genuine(longer) then Some(l.(history := Some(longer))) else None
  }

  /** The history was at `expected`, and adding the events leads genuinely to `successor`; they are in place already, or
      are still to be added. */
  ghost predicate Extends(crypto: Crypto, h: History, base: History, expected: Endpoint, successor: Endpoint,
                          added: seq<Event>)
  {
    var longer := History(base.events + added, successor);
    && base.endpoint == expected && crypto.genuine(base) && crypto.genuine(longer)
    && (h == longer || (h == base && expected != successor))
  }

  lemma TakenExtends(crypto: Crypto, l: Ledger, expected: Endpoint, successor: Endpoint, added: seq<Event>)
    requires AcceptExtension(crypto, l, expected, successor, added).Some?
    ensures var taken := AcceptExtension(crypto, l, expected, successor, added).value;
            exists base ::
              && Extends(crypto, l.history.value, base, expected, successor, added)
              && taken == l.(history := Some(History(base.events + added, successor)))
  {
    var h := l.history.value;
    if h.endpoint == successor {
      var base := History(h.events[..|h.events| - |added|], expected);
      assert h.events == base.events + added;
      assert Extends(crypto, h, base, expected, successor, added);
    } else {
      assert Extends(crypto, h, h, expected, successor, added);
    }
  }

  lemma ExtensionIsTaken(crypto: Crypto, l: Ledger, base: History, expected: Endpoint, successor: Endpoint,
                         added: seq<Event>)
    requires 1 <= |added| <= MAX_EVENTS && Bytes(crypto, added) <= MAX_BYTES
    requires added[0].parent == expected.state && added[|added| - 1].successor == successor.state
    requires l.history.Some? && Extends(crypto, l.history.value, base, expected, successor, added)
    ensures AcceptExtension(crypto, l, expected, successor, added) ==
            Some(l.(history := Some(History(base.events + added, successor))))
  {
    var longer := base.events + added;
    assert longer[|longer| - |added|..] == added && longer[..|longer| - |added|] == base.events;
    assert base == History(base.events, expected);
  }

  /** An extension is taken exactly when it is within both budgets, leads from the expected endpoint to the successor,
      and the verified history is what it extends or what it leads to. The history then ends with it, nothing else is
      changed, and taking it again changes nothing. */
  lemma ExtensionTakenExactly(crypto: Crypto, l: Ledger, expected: Endpoint, successor: Endpoint, added: seq<Event>)
    ensures var taken := AcceptExtension(crypto, l, expected, successor, added);
            && (taken.Some? <==>
                  && 1 <= |added| <= MAX_EVENTS && Bytes(crypto, added) <= MAX_BYTES
                  && added[0].parent == expected.state && added[|added| - 1].successor == successor.state
                  && l.history.Some?
                  && exists base :: Extends(crypto, l.history.value, base, expected, successor, added))
            && (taken.Some? ==>
                  && AcceptExtension(crypto, taken.value, expected, successor, added) == taken
                  && exists base ::
                       && Extends(crypto, l.history.value, base, expected, successor, added)
                       && taken.value == l.(history := Some(History(base.events + added, successor))))
  {
    var taken := AcceptExtension(crypto, l, expected, successor, added);
    if taken.Some? {
      TakenExtends(crypto, l, expected, successor, added);
      var base :| && Extends(crypto, l.history.value, base, expected, successor, added)
                  && taken.value == l.(history := Some(History(base.events + added, successor)));
      assert Extends(crypto, taken.value.history.value, base, expected, successor, added);
      ExtensionIsTaken(crypto, taken.value, base, expected, successor, added);
    } else if 1 <= |added| <= MAX_EVENTS && Bytes(crypto, added) <= MAX_BYTES &&
              added[0].parent == expected.state && added[|added| - 1].successor == successor.state && l.history.Some? {
      forall base ensures !Extends(crypto, l.history.value, base, expected, successor, added)
      {
        if Extends(crypto, l.history.value, base, expected, successor, added) {
          ExtensionIsTaken(crypto, l, base, expected, successor, added);
        }
      }
    }
  }

  function Activate(crypto: Crypto, l: Ledger, expected: Endpoint): Option<Ledger>
  {
    var read := ReadHistory(crypto, l);
    if read.Some? && read.value.endpoint == expected && crypto.openable(read.value)
    then Some(l.(activation := Some(expected))) else None
  }

  /** Only the endpoint the verified history ends in can be activated, and only if this device can open it. */
  lemma ActivatedWhereTheHistoryEnds(crypto: Crypto, l: Ledger, expected: Endpoint)
    ensures var active := Activate(crypto, l, expected);
            && (active.Some? ==>
                  && active.value.history == l.history && active.value.controls == l.controls && l.history.Some?
                  && active.value.activation == Some(l.history.value.endpoint)
                  && crypto.genuine(l.history.value) && crypto.openable(l.history.value))
            && (active.None? ==>
                  || l.history.None? || l.history.value.endpoint != expected
                  || !crypto.genuine(l.history.value) || !crypto.openable(l.history.value))
  {
  }

  /** The vault as an object whose transactions change it in place. */
  class Vault {
    const crypto: Crypto
    var history: Option<History>
    var controls: map<nat, Control>
    var intents: Intents
    var activation: Option<Endpoint>

    ghost function State(): VaultState
      reads this
    {
      VaultState(Records(), intents)
    }

    ghost function Records(): Ledger
      reads this
    {
      Ledger(history, controls, activation)
    }

    constructor (crypto: Crypto, history: Option<History>)
      ensures this.crypto == crypto && State() == VaultState(Ledger(history, map[], None), map[])
    {
      this.crypto, this.history, controls, intents, activation := crypto, history, map[], map[], None;
    }

    method Begin(op: OpId) returns (ok: bool)
      modifies this
      ensures ok == BeginSubmission(old(intents), op).Some?
      ensures State() == old(State()).(intents := if ok then BeginSubmission(old(intents), op).value else old(intents))
    {
      ok := op in intents;
      if ok && !intents[op].sendCanceled {
        match intents[op].disposition {
          case Prepared => intents := intents[op := intents[op].(disposition := Submitting)];
          case Unconfirmed => intents := intents[op := intents[op].(disposition := Submitting)];
          case _ =>
        }
      }
    }

    method SetUnconfirmed(op: OpId) returns (ok: bool)
      modifies this
      ensures ok == MarkUnconfirmed(old(intents), op).Some?
      ensures State() == old(State()).(intents := if ok then MarkUnconfirmed(old(intents), op).value else old(intents))
    {
      ok := op in intents;
      if ok && intents[op].disposition.Submitting? {
        intents := intents[op := intents[op].(disposition := Unconfirmed)];
      }
    }

    method SetConflict(op: OpId) returns (ok: bool)
      modifies this
      ensures ok == MarkConflict(old(intents), op).Some?
      ensures State() == old(State()).(intents := if ok then MarkConflict(old(intents), op).value else old(intents))
    {
      ok := op in intents;
      if ok {
        match intents[op].disposition {
          case Accepted(_) =>
          case Conflict =>
          case CanceledBeforeSend =>
          case _ => intents := intents[op := intents[op].(disposition := Conflict)];
        }
      }
    }

    method Cancel(op: OpId) returns (ok: bool)
      modifies this
      ensures ok == CancelSubmission(old(intents), op).Some?
      ensures State() == old(State()).(intents := if ok then CancelSubmission(old(intents), op).value else old(intents))
    {
      ok := op in intents;
      if ok {
        var outcome := intents[op].disposition;
        match outcome {
          case Prepared => outcome := CanceledBeforeSend;
          case Submitting => outcome := Unconfirmed;
          case _ =>
        }
        intents := intents[op := intents[op].(disposition := outcome, sendCanceled := true)];
      }
    }

    /** No intent is left submitting: each that was is unconfirmed, and nothing else has changed. */
    method Recover()
      modifies this`intents
      ensures intents.Keys == old(intents).Keys
      ensures forall op | op in intents :: !intents[op].disposition.Submitting?
      ensures forall op | op in intents && old(intents)[op].disposition.Submitting? ::
                intents[op] == Coordination(old(intents)[op].intent, old(intents)[op].sendCanceled, Unconfirmed)
      ensures forall op | op in intents && !old(intents)[op].disposition.Submitting? :: intents[op] == old(intents)[op]
    {
      intents := RecoverSubmissions(intents);
    }

    method Accept(op: OpId, receipt: Receipt) returns (ok: bool)
      modifies this
      ensures ok == AcceptReceipt(old(intents), op, receipt).Some?
      ensures Records() == old(Records())
      ensures intents == if ok then AcceptReceipt(old(intents), op, receipt).value else old(intents)
    {
      if op !in intents || receipt != ExpectedReceipt(intents[op].intent.control) {
        return false;
      }
      match intents[op].disposition {
        case Accepted(existing) =>
          return existing == receipt;
        case Conflict =>
          return false;
        case _ =>
          intents := intents[op := intents[op].(disposition := Accepted(receipt))];
          return true;
      }
    }

    method Commit(record: Control, current: History) returns (ok: bool)
      modifies this
      ensures ok == CommitControl(crypto, old(Records()), record, current).Some?
      ensures intents == old(intents)
      ensures Records() == if ok then CommitControl(crypto, old(Records()), record, current).value else old(Records())
    {
      var epoch := EpochOf(record);
      if epoch in controls {
        return controls[epoch] == record;
      }
      if !crypto.lawful(record, current) || !ControlsEndAt(controls, current.endpoint) {
        return false;
      }
      controls := controls[epoch := record];
      return true;
    }

    method Extend(expected: Endpoint, successor: Endpoint, added: seq<Event>) returns (ok: bool)
      modifies this
      ensures ok == AcceptExtension(crypto, old(Records()), expected, successor, added).Some?
      ensures intents == old(intents)
      ensures Records() == if ok then AcceptExtension(crypto, old(Records()), expected, successor, added).value
                           else old(Records())
    {
      if history.None? || !crypto.genuine(history.value) {
        return false;
      }
      var bytes := 0;
      for i := 0 to |added|
        invariant bytes == Bytes(crypto, added[..i])
      {
        assert added[..i + 1][..i] == added[..i];
        bytes := bytes + crypto.size(added[i]);
      }
      assert added[..|added|] == added;
      if added == [] || MAX_EVENTS < |added| || MAX_BYTES < bytes {
        return false;
      }
      if added[0].parent != expected.state || added[|added| - 1].successor != successor.state {
        return false;
      }
      var h := history.value;
      if h.endpoint == successor {
        if |h.events| < |added| {
          return false;
        }
        var start := |h.events| - |added|;
        return h.events[start..] == added && crypto.genuine(History(h.events[..start], expected));
      }
      if h.endpoint != expected {
        return false;
      }
      var longer := History(h.events + added, successor);
      if !crypto.genuine(longer) {
        return false;
      }
      history := Some(longer);
      return true;
    }

    method ActivateCurrent(expected: Endpoint) returns (ok: bool)
      modifies this
      ensures ok == Activate(crypto, old(Records()), expected).Some?
      ensures intents == old(intents)
      ensures Records() == if ok then Activate(crypto, old(Records()), expected).value else old(Records())
    {
      ok := history.Some? && crypto.genuine(history.value) && history.value.endpoint == expected
            && crypto.openable(history.value);
      if ok {
        activation := Some(expected);
      }
    }
  }
}
