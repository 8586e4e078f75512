/** The execution registry: the current binding and an append-only list of terminal records. */
module ExecutionRegistry {
  import opened Common

  /** The execution identity: a digest of the source pinset and the Manager revision, taken as those two. */
  datatype Identity = Identity(pinset: string, manager: string)

  datatype Pins = Pins(pinset: string, mapRevision: string, pinviRevision: string)

  datatype Binding = Binding(pins: Pins, manager: string) {
    function Id(): Identity {
      Identity(pins.pinset, manager)
    }
  }

  /** A terminal record; without a phase it blocks the identity unconditionally. */
  datatype Blocked = Blocked(identity: Identity, phase: Option<string>)

  const MAX_BLOCKED := 500

  /** The phase of the record left by a run that completed the acceptance body. */
  const CONSUMED := "execution_identity_consumed"

  datatype Registry = Registry(current: Binding, blocked: seq<Blocked>) {

    predicate Has(identity: Identity, phase: Option<string>) {
      Blocked(identity, phase) in blocked
    }

    predicate CurrentMatches(pins: Pins, manager: string) {
      current.pins == pins && current.manager == manager
    }

    predicate IsUnconditionallyBlockedCurrent() {
      Has(current.Id(), None)
    }

    /** A record for this phase, or an unconditional one. */
    predicate HasBlockForCurrent(phase: string) {
      Has(current.Id(), None) || Has(current.Id(), Some(phase))
    }

    /** Appends a record unless it would add nothing; `None` when the list is full. */
    function BlockCurrent(phase: Option<string>): (r: Option<Registry>)
      ensures r.Some? ==> r.value.current == current && blocked <= r.value.blocked
    {
      if IsUnconditionallyBlockedCurrent() || (phase.Some? && Has(current.Id(), phase)) then Some(this)
      else if |blocked| >= MAX_BLOCKED then None
      else Some(this.(blocked := blocked + [Blocked(current.Id(), phase)]))
    }

    /** The identity may not be run again: burnt, or consumed by a completed run. */
    predicate Closed(identity: Identity) {
      Has(identity, None) || Has(identity, Some(CONSUMED))
    }

    /** What a record changes: one identity, one phase, nothing else. */
    lemma BlockCurrentAddsOneRecord(phase: Option<string>)
      requires BlockCurrent(phase).Some?
      ensures var after := BlockCurrent(phase).value;
              && (forall identity, p :: identity != current.Id() || p != phase
                    ==> (after.Has(identity, p) <==> Has(identity, p)))
              && (after.Has(current.Id(), phase) || IsUnconditionallyBlockedCurrent())
    {}
  }
}
