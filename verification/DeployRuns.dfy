/**
 * Any sequence of deploys over one status file: they begin, reset, commit, fail and crash in any order, and any write
 * may fail. What the file says is explained by the latest event that set it.
 */
module DeployRuns {
  import opened Common
  import opened DeployStatus

  /** `written` says whether the atomic replacement of the file went through. */
  datatype Event =
    | Begin(identity: Identity, restart: Option<Decision>, adopted: Option<Decision>, live: Option<Databases>,
            written: bool)
    | ResetDone(written: bool)
    | Commit(committedAt: string, images: map<string, string>, schemaHeads: map<string, string>, databases: Databases,
             written: bool)
    | Crash

  /** A deploy under way; `resetPending` until a `--restart` has reset the databases. */
  datatype Active = Active(status: Status, resetPending: bool)

  /** How a status is stored; only that decoding undoes encoding matters here. */
  datatype Codec = Codec(encode: Status -> Json, decode: Json -> Result<Status, Refusal>) {
    ghost predicate IsFaithful() {
      forall status :: decode(encode(status)) == Ok(status)
    }
  }

  lemma StrictCodecIsFaithful()
    ensures Codec(Encode, Decode).IsFaithful()
  {
    forall status: Status
      ensures Decode(Encode(status)) == Ok(status)
    {
      RoundTrip(status);
    }
  }

  datatype Host = Host(codec: Codec, file: Option<Json>, active: Option<Active>) {

    function Read(): Result<Option<Status>, Refusal> {
      if file.None? then
        Ok(None)
      else
        var status :- codec.decode(file.value);
        Ok(Some(status))
    }

    /** What the event writes, if its run gets that far. */
    function Writes(event: Event): Result<Status, Refusal> {
      match event
      case Begin(identity, restart, adopted, live, written) =>
        if active.Some? || !written then
          Err(Refusal)
        else
          var previous :- Read();
          BeginDeploy(previous, identity, restart, adopted, live)
      case ResetDone(written) =>
        if active.None? || !active.value.resetPending || !written then Err(Refusal) else MarkReset(active.value.status)
      case Commit(committedAt, images, schemaHeads, databases, written) =>
        if active.None? || active.value.resetPending || !written then
          Err(Refusal)
        else
          CommitDeploy(active.value.status, committedAt, images, schemaHeads, databases)
      case Crash => Err(Refusal)
    }

    function Step(event: Event): Host {
      var status := Writes(event);
      match event
      case Begin(_, restart, _, _, _) =>
        if status.Err? then
          this
        else
          Host(codec, Some(codec.encode(status.value)), Some(Active(status.value, restart.Some?)))
      case ResetDone(_) =>
        if active.None? || !active.value.resetPending then
          this
        else if status.Err? then
          this.(active := None)
        else
          Host(codec, Some(codec.encode(status.value)), Some(Active(status.value, false)))
      case Commit(_, _, _, _, _) =>
        if active.None? || active.value.resetPending then
          this
        else if status.Err? then
          this.(active := None)
        else
          Host(codec, Some(codec.encode(status.value)), None)
      case Crash => this.(active := None)
    }

    /** Nothing runs, and the file is absent or can be read. */
    ghost predicate Idle() {
      codec.IsFaithful() && active.None? && Read().Ok?
    }
  }

  function Run(host: Host, events: seq<Event>): Host {
    if events == [] then host else Run(host, events[..|events| - 1]).Step(events[|events| - 1])
  }

  /** The two decisions a status carries. */
  datatype Decisions = Decisions(restart: Option<Decision>, adopted: Option<Decision>)

  /** What a file says about the history that led to it. */
  datatype Ledger = Ledger(identity: Option<Identity>, baseline: Option<Databases>, reset: Option<Decision>,
                           adoption: Option<Decision>, carried: Decisions) {

    /**
     * The baseline is set by a commit, an adoption or a completed reset. A completed reset leaves its decision behind
     * until a commit or a new decision; an adoption leaves its own until a commit or a `--restart`. The status carries
     * the identity of the run that wrote it, and the decisions that run was given or took over.
     */
    function After(event: Event): Ledger {
      match event
      case Begin(identity, restart, adopted, live, _) =>
        if adopted.Some? then
          Ledger(Some(identity), live, None, adopted, Decisions(None, adopted))
        else if restart.Some? then
          Ledger(Some(identity), baseline, None, None, Decisions(restart, None))
        else
          Ledger(Some(identity), baseline, reset, adoption, Decisions(reset, adoption))
      case ResetDone(_) => Ledger(identity, None, carried.restart, None, carried)
      case Commit(_, _, _, databases, _) => Ledger(identity, Some(databases), None, None, carried)
      case Crash => this
    }
  }

  function LedgerOf(status: Option<Status>): Ledger {
    match status
    case None => Ledger(None, None, None, None, Decisions(None, None))
    case Some(status) =>
      Ledger(Some(status.identity), status.databases,
             if status.state == IN_PROGRESS && status.step == Some(RESET_DONE_STEP) then status.restart else None,
             if status.state == IN_PROGRESS then status.adopted else None,
             Decisions(status.restart, status.adopted))
  }

  /** The history itself: every event that took effect, from the latest back to the file there was at first. */
  ghost function History(host: Host, events: seq<Event>): Ledger
    requires host.Idle()
  {
    if events == [] then
      LedgerOf(host.Read().value)
    else
      var before, event := Run(host, events[..|events| - 1]), events[|events| - 1];
      var earlier := History(host, events[..|events| - 1]);
      if before.Writes(event).Ok? then earlier.After(event) else earlier
  }

  /** What is known of a host whose history is this. */
  ghost predicate Explained(host: Host, ledger: Ledger) {
    && host.codec.IsFaithful()
    && host.Read().Ok?
    && LedgerOf(host.Read().value) == ledger
    && (host.active.Some? ==>
          && host.Read().value == Some(host.active.value.status)
          && host.active.value.status.state == IN_PROGRESS
          && (host.active.value.resetPending ==>
                host.active.value.status.step == None && host.active.value.status.adopted == None))
  }

  lemma BeginIsExplained(host: Host, event: Event, ledger: Ledger)
    requires Explained(host, ledger) && event.Begin? && host.Writes(event).Ok?
    ensures Explained(host.Step(event), ledger.After(event))
  {}

  lemma ResetIsExplained(host: Host, event: Event, ledger: Ledger)
    requires Explained(host, ledger) && event.ResetDone? && host.Writes(event).Ok?
    ensures Explained(host.Step(event), ledger.After(event))
  {}

  lemma CommitIsExplained(host: Host, event: Event, ledger: Ledger)
    requires Explained(host, ledger) && event.Commit? && host.Writes(event).Ok?
    ensures Explained(host.Step(event), ledger.After(event))
  {}

  lemma FailureIsExplained(host: Host, event: Event, ledger: Ledger)
    requires Explained(host, ledger) && host.Writes(event).Err?
    ensures Explained(host.Step(event), ledger)
  {}

  lemma {:induction false} RunIsExplained(host: Host, events: seq<Event>)
    requires host.Idle()
    ensures Explained(Run(host, events), History(host, events))
  {
    if events != [] {
      var earlier, event := events[..|events| - 1], events[|events| - 1];
      RunIsExplained(host, earlier);
      var before, ledger := Run(host, earlier), History(host, earlier);
      if before.Writes(event).Err? {
        FailureIsExplained(before, event, ledger);
      } else if event.Begin? {
        BeginIsExplained(before, event, ledger);
      } else if event.ResetDone? {
        ResetIsExplained(before, event, ledger);
      } else {
        CommitIsExplained(before, event, ledger);
      }
    }
  }

  /**
   * The stored baseline is the one set by the latest commit, adoption or completed reset, whatever failed in between.
   * A record of a reset or an adoption is there exactly if an unfinished one left it; the identity is that of the
   * latest run that began, and a committed status carries the decisions its run was given or took over.
   */
  lemma FileTellsItsHistory(host: Host, events: seq<Event>)
    requires host.Idle()
    ensures Run(host, events).Read().Ok? && LedgerOf(Run(host, events).Read().value) == History(host, events)
  {
    RunIsExplained(host, events);
  }

  /**
   * A plain run is never refused and keeps the baseline. It takes over a restart record exactly if a completed reset
   * left it behind, and an adoption record exactly if an unfinished adoption did.
   */
  lemma PlainContinuation(host: Host, events: seq<Event>, identity: Identity)
    requires host.Idle() && Run(host, events).active.None? && identity.Valid()
    ensures var status := Run(host, events).Writes(Begin(identity, None, None, None, true));
            && status.Ok?
            && status.value.databases == History(host, events).baseline
            && status.value.restart == History(host, events).reset
            && status.value.adopted == History(host, events).adoption
            && (status.value.restart.Some? ==> status.value.step == Some(RESET_DONE_STEP))
  {
    RunIsExplained(host, events);
  }

  /** Beginning with `--restart` keeps the baseline: only the reset itself clears it. */
  lemma RestartKeepsTheBaseline(host: Host, events: seq<Event>, identity: Identity, restart: Decision,
                                live: Option<Databases>)
    requires host.Idle() && Run(host, events).active.None? && identity.Valid()
    ensures var status := Run(host, events).Writes(Begin(identity, Some(restart), None, live, true));
            && status.Ok?
            && status.value.databases == History(host, events).baseline && status.value.step == None
            && status.value.restart == Some(restart) && status.value.adopted == None
  {
    RunIsExplained(host, events);
  }

  /** A completed reset can always be recorded: it clears the baseline and keeps the decision. */
  lemma ResetIsNeverRefused(host: Host, events: seq<Event>)
    requires host.Idle() && Run(host, events).active.Some? && Run(host, events).active.value.resetPending
    ensures var status := Run(host, events).Writes(ResetDone(true));
            && status.Ok? && status.value.databases == None && status.value.step == Some(RESET_DONE_STEP)
            && status.value.restart == Run(host, events).active.value.status.restart
  {
    RunIsExplained(host, events);
  }

  /** No deploy runs, and the file, if there is one, is read and written by the strict codec. */
  function StrictHost(file: Option<Json>): Host {
    Host(Codec(Encode, Decode), file, None)
  }

  /** All of this holds of the strict codec, whatever accepted file there was at first. */
  lemma StrictHistory(file: Option<Json>, events: seq<Event>)
    requires file.Some? ==> Decode(file.value).Ok?
    ensures StrictHost(file).Idle()
    ensures Run(StrictHost(file), events).Read().Ok?
    ensures LedgerOf(Run(StrictHost(file), events).Read().value) == History(StrictHost(file), events)
  {
    StrictCodecIsFaithful();
    FileTellsItsHistory(StrictHost(file), events);
  }

  lemma StrictContinuation(file: Option<Json>, events: seq<Event>, identity: Identity)
    requires file.Some? ==> Decode(file.value).Ok?
    requires Run(StrictHost(file), events).active.None? && identity.Valid()
    ensures StrictHost(file).Idle()
    ensures var status := Run(StrictHost(file), events).Writes(Begin(identity, None, None, None, true));
            && status.Ok?
            && status.value.databases == History(StrictHost(file), events).baseline
            && status.value.restart == History(StrictHost(file), events).reset
            && status.value.adopted == History(StrictHost(file), events).adoption
  {
    StrictCodecIsFaithful();
    PlainContinuation(StrictHost(file), events, identity);
  }
}
