/**
 * The one-shot acceptance driver: check, claim, body, cleanup, terminal record, receipt. Every step may fail;
 * the body must still run at most once per execution identity.
 */
module M05Driver {
  import opened Common
  import opened ExecutionRegistry

  /** How a step ends when it does not succeed. */
  datatype Fault =
    | PhaseError(phase: string)   // a named contract failure
    | OrdinaryException
    | Interrupt                   // a BaseException: not caught, only finalised

  /** What happens to a registry write. */
  datatype WriteOutcome =
    | Written
    | NotWritten
    | WrittenButReported          // the private file was replaced before the failure

  /** Everything outside the driver's control in one run. */
  datatype Circumstances = Circumstances(
    pinsReadable: bool,
    pendingRotation: bool,
    registryReadable: bool,
    fault: nat -> Option<Fault>,      // by step number
    claimLeft: bool,                  // a claim that fails has left its file in the ledger
    cleanupFailed: bool,
    cleanupUnexpected: bool,
    finalPinsReadable: bool,
    finalRegistryReadable: bool,
    recordCrashes: bool,              // an exception other than a registry error while recording
    write: WriteOutcome,
    receiptWritable: bool)
  {
    predicate CleanupProblem() {
      cleanupUnexpected || cleanupFailed
    }

    /** The terminal record can be prepared, and nothing unforeseen happens meanwhile. */
    predicate ReachesTheWrite() {
      finalPinsReadable && finalRegistryReadable && !recordCrashes
    }

    /** The registry write succeeds. */
    predicate WritesRecord() {
      ReachesTheWrite() && write == Written
    }

    /** How a step ends; the claim is also refused when the ledger holds as many claims of the identity as it may. */
    function FaultAt(n: nat, exhausted: bool): Option<Fault> {
      if n == CLAIM_STEP && exhausted && fault(n).None? then Some(OrdinaryException) else fault(n)
    }

    /** The claim step leaves a file in the ledger. */
    predicate LeavesClaim(exhausted: bool) {
      !exhausted && (fault(CLAIM_STEP).None? || claimLeft)
    }
  }

  datatype Status = Passed | StatusBlocked | PreflightRejected | Rehearsed | RehearsalFailed

  datatype Receipt = Receipt(status: Status, phase: string, driverPhase: string, cleanupFailed: bool, hasHashes: bool)

  /** What one run did, as far as a reader of the receipt and the registry can tell. */
  datatype Run = Run(
    claimed: bool,
    entered: bool,
    finished: bool,        // the body ran to its end
    interrupted: bool,
    cleanupProblem: bool,
    recorded: bool,        // the terminal record is known to be in the registry
    receipt: Receipt,
    receiptWritten: bool,
    exitCode: Option<int>)

  const LEDGER_CLAIM := "ledger_claim"
  const BODY := "m04_m05_e2e"
  const CLEANUP_FAILED := "runtime_cleanup_failed"
  const BLOCK_FAILED := "runtime_execution_block_failed"
  const CONTRACT_FAILED := "driver_contract_failed"

  const PRE_CLAIM_STEPS: seq<string> := [
    "source_materialization", "runtime_setup_ports", "runtime_setup_workspace", "runtime_setup_admission_build",
    "runtime_setup_admission_write", "runtime_setup_network", "runtime_setup_credentials", "runtime_setup_map_config",
    "runtime_loopback_publish_config_invalid", "runtime_setup_map_config", "runtime_setup_playwright_runner_image"]

  const RUNTIME_STEPS: seq<string> := ["runtime_setup_pinvi_config", "map_runtime", "map_subscription", "pinvi_runtime"]

  /** The fixed vocabulary a phase must belong to before it is made public. */
  predicate IsVocabulary(vocabulary: set<string>) {
    CONSUMED in vocabulary && CLEANUP_FAILED in vocabulary && LEDGER_CLAIM in vocabulary && BODY in vocabulary
  }

  function PublicPhase(phase: string, vocabulary: set<string>): string {
    if phase in vocabulary then phase else CONTRACT_FAILED
  }

  /** Unconditional (`None`) for the claim and the body, scoped to the phase otherwise. */
  function TerminalBlockPhase(publicPhase: string): Option<string> {
    if publicPhase == LEDGER_CLAIM || publicPhase == BODY || "m04_" <= publicPhase || "m05_" <= publicPhase then None
    else Some(publicPhase)
  }

  /** The scope of a terminal record; forced to be unconditional once the body was entered. */
  function BlockPhase(phase: string, forceUnconditional: bool, vocabulary: set<string>): Option<string> {
    if forceUnconditional then None else TerminalBlockPhase(PublicPhase(phase, vocabulary))
  }

  function DriverExitCode(completed: bool, receiptWriteFailed: bool): int {
    if completed && !receiptWriteFailed then 0 else 1
  }

  /** How many claims of one identity the ledger takes. */
  const CLAIM_LIMIT := 32

  predicate OutOfClaims(ledger: seq<Identity>, x: Identity) {
    Count(ledger, x) >= CLAIM_LIMIT
  }

  function Count(log: seq<Identity>, x: Identity): nat {
    if log == [] then 0 else Count(log[..|log| - 1], x) + if log[|log| - 1] == x then 1 else 0
  }

  /** Why the runnable check refuses, if it does. */
  function Refusal(registry: Registry, pins: Pins, release: Pins, manager: string, c: Circumstances): Option<string> {
    if c.pendingRotation || !c.pinsReadable then Some("runtime_pin_registry_invalid")
    else if pins != release then Some("runtime_pin_registry_changed")
    else if !c.registryReadable then Some("runtime_execution_registry_invalid")
    else if !registry.CurrentMatches(pins, manager) then Some("runtime_execution_registry_changed")
    else if registry.IsUnconditionallyBlockedCurrent() then Some("terminal_execution_blocked")
    else if registry.HasBlockForCurrent(CONSUMED) then Some(CONSUMED)
    else None
  }

  // The steps of the protected part, in order: admission, setup, claim, runtime setup, body.

  const CLAIM_STEP := 1 + |PRE_CLAIM_STEPS|
  const BODY_STEP := CLAIM_STEP + 1 + |RUNTIME_STEPS|

  function PhaseAt(n: nat): string
    requires n <= BODY_STEP
  {
    if n == 0 then
      "admission"
    else if n < CLAIM_STEP then
      PRE_CLAIM_STEPS[n - 1]
    else if n == CLAIM_STEP then
      LEDGER_CLAIM
    else if n < BODY_STEP then
      RUNTIME_STEPS[n - CLAIM_STEP - 1]
    else
      BODY
  }

  /** No step before this one ends in a fault, nor in a refusal by the ledger. */
  predicate NoFaultBefore(c: Circumstances, exhausted: bool, n: nat) {
    (forall m :: 0 <= m < n ==> c.fault(m).None?) && (exhausted ==> n <= CLAIM_STEP)
  }

  /** The phase once a fault has been caught. */
  function PhaseOfFault(fault: Fault, phase: string, vocabulary: set<string>): string {
    match fault
    case PhaseError(name) => name
    case OrdinaryException => PublicPhase(phase, vocabulary)
    case Interrupt => phase
  }

  /** Admission and setup go through. */
  predicate IsPrepared(registry: Registry, pins: Pins, release: Pins, manager: string, c: Circumstances) {
    Refusal(registry, pins, release, manager, c).None? && NoFaultBefore(c, false, CLAIM_STEP)
  }

  /** How far the protected part of a run got. */
  datatype Attempted = Attempted(phase: string, claimed: bool, entered: bool, finished: bool, rehearsed: bool,
                                 stop: Option<Fault>) {

    predicate Valid(rehearse: bool) {
      && (finished ==> entered) && (entered ==> claimed) && (claimed ==> !rehearse && !rehearsed)
      && (finished || rehearsed <==> stop.None?) && (rehearsed ==> rehearse)
      && (finished ==> phase == BODY)
    }

    /** The attempt goes as far as its faults let it, and stops at the first. */
    predicate Follows(at: nat, refusal: Option<string>, rehearse: bool, c: Circumstances, exhausted: bool) {
      var prepared := refusal.None? && NoFaultBefore(c, false, CLAIM_STEP);
      && (claimed <==> !rehearse && prepared)
      && (rehearsed <==> rehearse && prepared)
      && (entered <==> claimed && NoFaultBefore(c, exhausted, BODY_STEP))
      && (finished <==> claimed && NoFaultBefore(c, exhausted, BODY_STEP + 1))
      && (stop.Some? ==> StopsAt(phase, stop, at, refusal, c, exhausted))
    }

    /** What the run's outcome keeps of the attempt. */
    predicate EndsIn(run: Run, c: Circumstances, vocabulary: set<string>) {
      && run.claimed == claimed && run.entered == entered && run.finished == finished
      && run.interrupted == (stop == Some(Interrupt))
      && (stop.Some? ==> run.receipt.driverPhase == Phase(vocabulary))
      && (run.receipt.status == Rehearsed <==> rehearsed && !c.cleanupFailed)
    }

    /** The phase once the fault that stopped the run has been caught. */
    function Phase(vocabulary: set<string>): string {
      match stop
      case Some(fault) => PhaseOfFault(fault, phase, vocabulary)
      case None => phase
    }
  }

  /** What stops a run at this step: its fault, or a refusal of the admission. */
  function StopAt(at: nat, refusal: Option<string>, c: Circumstances, exhausted: bool): Option<Fault> {
    if at > 0 || c.fault(0).Some? then c.FaultAt(at, exhausted)
    else match refusal
         case Some(phase) => Some(PhaseError(phase))
         case None => None
  }

  /** Where a run stops: in the phase of its first fault, or at a refusal of the admission. */
  predicate StopsAt(phase: string, stop: Option<Fault>, at: nat, refusal: Option<string>, c: Circumstances,
                    exhausted: bool)
  {
    && at <= BODY_STEP && NoFaultBefore(c, exhausted, at) && phase == PhaseAt(at)
    && stop.Some? && stop == StopAt(at, refusal, c, exhausted)
  }

  /** The trusted host: registries, and a log of every body entry. */
  class Host {
    const vocabulary: set<string>
    var registry: Registry
    var pins: Pins
    var ledger: seq<Identity>       // one element per claim file
    var entered: seq<Identity>      // one element per entry into the acceptance body
    var unrecorded: seq<Identity>   // entries whose terminal record could not be confirmed

    /**
     * The one-shot invariant: an identity's body entries are covered by the registry (which then refuses the
     * identity) or by entries whose record could not be confirmed. Every entry has its claim in the ledger.
     */
    ghost predicate Valid()
      reads this
    {
      && IsVocabulary(vocabulary)
      && AllCovered(registry, entered, unrecorded)
      && AllClaimed(entered, ledger)
    }

    constructor (vocabulary: set<string>, registry: Registry, pins: Pins, ledger: seq<Identity>)
      requires IsVocabulary(vocabulary) && AllClaimed([], ledger)
      ensures Valid() && entered == [] && unrecorded == []
      ensures this.vocabulary == vocabulary && this.registry == registry && this.pins == pins
      ensures this.ledger == ledger
    {
      this.vocabulary, this.registry, this.pins, this.ledger := vocabulary, registry, pins, ledger;
      entered, unrecorded := [], [];
    }

    /** A rotation between runs: a new current binding over the same append-only records. */
    method Rebind(binding: Binding)
      requires Valid()
      modifies this`registry, this`pins
      ensures Valid()
      ensures registry == old(registry).(current := binding) && pins == binding.pins
    {
      assert forall x :: Covered(registry, entered, unrecorded, x) ==>
        Covered(registry.(current := binding), entered, unrecorded, x);
      registry := registry.(current := binding);
      pins := binding.pins;
    }

    /** `_block_terminal_m05_execution`: true exactly if the record is confirmed. */
    method RecordTerminal(phase: string, manager: string, forceUnconditional: bool, c: Circumstances)
      returns (recorded: bool)
      modifies this`registry
      ensures var updated := old(registry).BlockCurrent(BlockPhase(phase, forceUnconditional, vocabulary));
              var matches := old(registry).CurrentMatches(pins, manager) && updated.Some?;
              && registry == (if matches && c.ReachesTheWrite() && c.write != NotWritten then updated.value
                              else old(registry))
              && (recorded <==> matches && c.WritesRecord())
    {
      var publicPhase := PublicPhase(phase, vocabulary);
      var blockPhase := BlockPhase(phase, forceUnconditional, vocabulary);
      if !c.finalPinsReadable || !c.finalRegistryReadable || c.recordCrashes {
        return false;
      }
      if !registry.CurrentMatches(pins, manager) {
        return false;
      }
      var updated := registry.BlockCurrent(blockPhase);
      if updated.None? {
        return false;
      }
      if c.write.Written? || c.write.WrittenButReported? {
        registry := updated.value;
      }
      if !c.write.Written? {
        return false;
      }
      recorded := if blockPhase.None? then registry.IsUnconditionallyBlockedCurrent()
                  else registry.HasBlockForCurrent(publicPhase);
    }

    /** Runs a number of steps, up to the first that faults; how many went through. */
    method RunSteps(c: Circumstances, count: nat, first: nat) returns (done: nat)
      ensures done <= count && forall m :: first <= m < first + done ==> c.fault(m).None?
      ensures done < count ==> c.fault(first + done).Some?
    {
      done := 0;
      while done < count && c.fault(first + done).None?
        invariant done <= count && forall m :: first <= m < first + done ==> c.fault(m).None?
      {
        done := done + 1;
      }
    }

    /** Admission and setup: everything before the claim. */
    method Prepare(release: Pins, manager: string, c: Circumstances, ghost exhausted: bool)
      returns (stop: Option<Fault>, phase: string, ghost at: nat)
      ensures stop.None? <==> IsPrepared(registry, pins, release, manager, c)
      ensures stop.Some? ==>
                && at < CLAIM_STEP
                && StopsAt(phase, stop, at, Refusal(registry, pins, release, manager, c), c, exhausted)
    {
      phase, at, stop := "admission", 0, c.fault(0);
      if stop.Some? {
        return;
      }
      var refusal := Refusal(registry, pins, release, manager, c);
      if refusal.Some? {
        stop := Some(PhaseError(refusal.value));
        return;
      }
      var prepared := RunSteps(c, |PRE_CLAIM_STEPS|, 1);
      if prepared < |PRE_CLAIM_STEPS| {
        phase, at, stop := PRE_CLAIM_STEPS[prepared], 1 + prepared, c.fault(1 + prepared);
      } else {
        phase := PRE_CLAIM_STEPS[|PRE_CLAIM_STEPS| - 1];
      }
    }

    /** `claim_m05_isolated_harness_ledger`: one more file for the current identity, if there are not too many. */
    method Claim(c: Circumstances) returns (stop: Option<Fault>)
      modifies this`ledger
      ensures var exhausted := OutOfClaims(old(ledger), registry.current.Id());
              && stop == c.FaultAt(CLAIM_STEP, exhausted)
              && ledger == Logged(old(ledger), c.LeavesClaim(exhausted), registry)
    {
      stop := c.fault(CLAIM_STEP);
      if OutOfClaims(ledger, registry.current.Id()) {
        if stop.None? {
          stop := Some(OrdinaryException);
        }
      } else if stop.None? || c.claimLeft {
        ledger := ledger + [registry.current.Id()];
      }
    }

    /** Claim, runtime setup and body. */
    method Perform(ghost refusal: Option<string>, c: Circumstances)
      returns (stop: Option<Fault>, phase: string, bodyEntered: bool, ghost at: nat)
      requires NoFaultBefore(c, false, CLAIM_STEP)
      modifies this`entered, this`ledger
      ensures var exhausted := OutOfClaims(old(ledger), registry.current.Id());
              && (bodyEntered <==> NoFaultBefore(c, exhausted, BODY_STEP))
              && (stop.None? <==> NoFaultBefore(c, exhausted, BODY_STEP + 1))
              && (stop.None? ==> phase == BODY)
              && (stop.Some? ==> StopsAt(phase, stop, at, refusal, c, exhausted))
              && ledger == Logged(old(ledger), c.LeavesClaim(exhausted), registry)
      ensures entered == Logged(old(entered), bodyEntered, registry)
    {
      bodyEntered := false;
      phase, at := LEDGER_CLAIM, CLAIM_STEP;
      stop := Claim(c);
      if stop.Some? {
        return;
      }
      var started := RunSteps(c, |RUNTIME_STEPS|, CLAIM_STEP + 1);
      if started < |RUNTIME_STEPS| {
        phase, at, stop := RUNTIME_STEPS[started], CLAIM_STEP + 1 + started, c.fault(CLAIM_STEP + 1 + started);
        return;
      }
      phase, at := BODY, BODY_STEP;
      bodyEntered := true;
      entered := entered + [registry.current.Id()];
      stop := c.fault(BODY_STEP);
    }

    /** The protected part of `main`: everything up to the end of the body, stopped by the first fault. */
    method Attempt(release: Pins, manager: string, rehearse: bool, c: Circumstances)
      returns (attempted: Attempted, ghost at: nat)
      modifies this`entered, this`ledger
      ensures attempted.Valid(rehearse)
      ensures attempted.claimed ==>
                registry.CurrentMatches(pins, manager) && pins == release && !registry.Closed(registry.current.Id())
      ensures entered == Logged(old(entered), attempted.entered, registry)
      ensures var exhausted := OutOfClaims(old(ledger), registry.current.Id());
              && attempted.Follows(at, Refusal(registry, pins, release, manager, c), rehearse, c, exhausted)
              && ledger == Logged(old(ledger), attempted.claimed && c.LeavesClaim(exhausted), registry)
    {
      var stop, phase;
      stop, phase, at := Prepare(release, manager, c, OutOfClaims(ledger, registry.current.Id()));
      if stop.Some? || rehearse {
        return Attempted(phase, false, false, false, stop.None?, stop), at;
      }
      var bodyEntered;
      stop, phase, bodyEntered, at := Perform(Refusal(registry, pins, release, manager, c), c);
      attempted := Attempted(phase, true, bodyEntered, stop.None?, false, stop);
    }

    /**
     * The `except` and `finally` blocks of `main`: from the end of the attempt to the receipt and the exit code. The
     * phase and the verdict are reassigned as cleanup and record go wrong.
     */
    method Conclude(attempted: Attempted, manager: string, rehearse: bool, c: Circumstances) returns (run: Run)
      requires IsVocabulary(vocabulary) && attempted.Valid(rehearse)
      requires attempted.claimed ==> registry.CurrentMatches(pins, manager)
      modifies this`registry
      ensures attempted.EndsIn(run, c, vocabulary) && run.receiptWritten == c.receiptWritable
      ensures run.cleanupProblem == c.CleanupProblem() && run.receipt.cleanupFailed == c.cleanupFailed
      ensures ReceiptIsConsistent(run, rehearse)
      ensures registry == RegistryAfter(old(registry), run, c, vocabulary)
      ensures run.recorded <==> IsRecorded(old(registry), run, c, vocabulary)
    {
      ConsumedIsScoped();
      var completed := attempted.finished;
      var phase := if attempted.rehearsed then "rehearsed" else attempted.Phase(vocabulary);
      var driverPhase := if completed then "completed" else phase;
      if c.cleanupUnexpected || c.cleanupFailed {
        completed := false;
        if attempted.claimed && !attempted.entered && TerminalBlockPhase(phase).Some? {
          phase := CLEANUP_FAILED;
        }
      }
      var blocked, consumed := false, false;
      if !completed && attempted.claimed {
        blocked := RecordTerminal(phase, manager, attempted.entered, c);
        if !blocked {
          phase := BLOCK_FAILED;
        }
      } else if completed && attempted.claimed {
        consumed := RecordTerminal(CONSUMED, manager, false, c);
      }
      var status := if completed then Passed else if attempted.claimed then StatusBlocked else PreflightRejected;
      if rehearse {
        status := if attempted.rehearsed && !c.cleanupFailed then Rehearsed else RehearsalFailed;
      }
      var receipt := Receipt(status, if completed then "completed" else phase, driverPhase, c.cleanupFailed, completed);
      var exitCode :=
        if rehearse then (if attempted.rehearsed && !c.cleanupFailed && c.receiptWritable then 0 else 1)
        else DriverExitCode(completed, !c.receiptWritable);
      var interrupted := attempted.stop == Some(Interrupt);
      run := Run(attempted.claimed, attempted.entered, attempted.finished, interrupted, c.CleanupProblem(),
                 blocked || consumed, receipt, c.receiptWritable, if interrupted then None else Some(exitCode));
    }

    /** One run of the driver; a run that stops does so at step `at`. */
    method RunOnce(release: Pins, manager: string, rehearse: bool, c: Circumstances) returns (run: Run, ghost at: nat)
      requires Valid()
      modifies this`registry, this`ledger, this`entered, this`unrecorded
      ensures Valid()
      ensures entered == Logged(old(entered), run.entered, old(registry))
      ensures unrecorded == Logged(old(unrecorded), run.entered && !run.recorded, old(registry))
      ensures registry == RegistryAfter(old(registry), run, c, vocabulary)
      ensures run.recorded <==> IsRecorded(old(registry), run, c, vocabulary)
      ensures RegistryStep(old(registry), registry, run, vocabulary)
      ensures ReceiptIsConsistent(run, rehearse)
      ensures run.receiptWritten == c.receiptWritable
      ensures run.cleanupProblem == c.CleanupProblem() && run.receipt.cleanupFailed == c.cleanupFailed
      ensures var refusal := Refusal(old(registry), pins, release, manager, c);
              var exhausted := OutOfClaims(old(ledger), old(registry).current.Id());
              && FollowsTheFaults(run, at, refusal, rehearse, c, exhausted, vocabulary)
              && ledger == Logged(old(ledger), run.claimed && c.LeavesClaim(exhausted), old(registry))
      ensures FailsInSetup(c) && !OutOfClaims(old(ledger), old(registry).current.Id()) ==>
                forall x :: registry.Closed(x) <==> old(registry).Closed(x)
    {
      ghost var before := registry;
      ghost var refusal := Refusal(registry, pins, release, manager, c);
      ghost var exhausted := OutOfClaims(ledger, registry.current.Id());
      var attempted;
      attempted, at := Attempt(release, manager, rehearse, c);
      run := Conclude(attempted, manager, rehearse, c);
      RecordingIsAStep(before, run, c, vocabulary);
      if run.entered && !run.recorded {
        unrecorded := unrecorded + [registry.current.Id()];
      }
      assert unrecorded == Logged(old(unrecorded), run.entered && !run.recorded, before);
      AttemptDecides(attempted, run, at, refusal, rehearse, c, exhausted, vocabulary);
      EntriesStayCovered(before, registry, run, vocabulary, old(entered), old(unrecorded));
      EntriesStayClaimed(before, old(entered), run.entered, old(ledger), run.claimed && c.LeavesClaim(exhausted));
      SetupFailureLeavesRunnable(before, run, at, refusal, rehearse, c, exhausted, vocabulary);
    }

    /** One command: a rotation, or a run. */
    method Execute(command: Command)
      requires Valid()
      modifies this`registry, this`pins, this`ledger, this`entered, this`unrecorded
      ensures Valid()
      ensures |registry.blocked| <= |old(registry).blocked| + 1
      ensures Writes(command) && |old(registry).blocked| < MAX_BLOCKED && old(unrecorded) == [] ==> unrecorded == []
      ensures forall x :: IsPassedLeaf(old(registry), x) ==> IsPassedLeaf(registry, x)
      ensures ledger == old(ledger) || ledger == Logged(old(ledger), true, old(registry))
      ensures IsSetupFailure(command) && !OutOfClaims(old(ledger), old(registry).current.Id()) ==>
                forall x :: registry.Closed(x) <==> old(registry).Closed(x)
    {
      ghost var before := registry;
      match command
      case Rotate(binding) =>
        Rebind(binding);
      case RunDriver(release, manager, rehearse, c) =>
        var run, at := RunOnce(release, manager, rehearse, c);
        PassedLeavesStayPassed(before, registry, run, vocabulary);
        if c.WritesRecord() && |before.blocked| < MAX_BLOCKED {
          WritingRunsAreRecorded(before, run, c, vocabulary);
        }
    }

    /**
     * Any number of runs, with rotations in between. No identity enters the body more often than it has claims in the
     * ledger. If every registry write succeeds and the registry has room, none enters it twice; otherwise the excess is
     * bounded by the entries that were not recorded. If every run fails between claim and body, and the ledger has
     * claims left, every identity stays as runnable as it was.
     */
    method Replay(commands: seq<Command>)
      requires Valid()
      modifies this`registry, this`pins, this`ledger, this`entered, this`unrecorded
      ensures Valid()
      ensures forall x :: Count(entered, x) <= CLAIM_LIMIT
      ensures old(unrecorded) == [] && AllWrite(commands) && |old(registry).blocked| + |commands| <= MAX_BLOCKED ==>
                forall x :: Count(entered, x) <= 1
      ensures forall x :: Count(entered, x) <= 1 + Count(unrecorded, x)
      ensures forall x :: IsPassedLeaf(old(registry), x) ==> IsPassedLeaf(registry, x)
      ensures AllFailInSetup(commands) && HasClaims(old(ledger), |commands|) ==>
                forall x :: registry.Closed(x) <==> old(registry).Closed(x)
    {
      ghost var room := |registry.blocked| + |commands| <= MAX_BLOCKED;
      ghost var recording := unrecorded == [] && AllWrite(commands) && room;
      ghost var failing := AllFailInSetup(commands) && HasClaims(ledger, |commands|);
      for i := 0 to |commands|
        invariant Valid()
        invariant forall x :: IsPassedLeaf(old(registry), x) ==> IsPassedLeaf(registry, x)
        invariant recording ==> unrecorded == [] && |registry.blocked| <= |old(registry).blocked| + i
        invariant failing ==> HasClaims(ledger, |commands| - i)
        invariant failing ==> forall x :: registry.Closed(x) <==> old(registry).Closed(x)
      {
        ghost var before, claims := registry, ledger;
        Execute(commands[i]);
        if failing {
          ClaimsLeft(claims, ledger, before, |commands| - i);
        }
      }
      assert forall x :: Covered(registry, entered, unrecorded, x) ==> Count(entered, x) <= 1 + Count(unrecorded, x);
      assert forall x :: IsClaimed(entered, ledger, x) ==> Count(entered, x) <= CLAIM_LIMIT;
    }

    /**
     * The writes are needed: runs that go through while their records are not written enter the body of one identity
     * again and again, until the ledger takes no further claim.
     */
    method RepeatUnwritten(manager: string, c: Circumstances, times: nat)
      requires Valid() && IsPrepared(registry, pins, pins, manager, c) && NoFaultBefore(c, false, BODY_STEP)
      requires !c.ReachesTheWrite() || c.write == NotWritten
      modifies this`registry, this`ledger, this`entered, this`unrecorded
      ensures Valid() && registry == old(registry)
      ensures Count(entered, registry.current.Id()) ==
              old(Count(entered, registry.current.Id()))
              + Min(times, CLAIM_LIMIT - old(Count(ledger, registry.current.Id())))
    {
      ghost var id := registry.current.Id();
      ghost var claims, entries := Count(ledger, id), Count(entered, id);
      assert IsClaimed(entered, ledger, id);
      for i := 0 to times
        invariant Valid() && registry == old(registry)
        invariant Count(ledger, id) == claims + Min(i, CLAIM_LIMIT - claims)
        invariant Count(entered, id) == entries + Min(i, CLAIM_LIMIT - claims)
      {
        ghost var exhausted := OutOfClaims(ledger, id);
        CountLogged(entered, !exhausted, registry, id);
        CountLogged(ledger, !exhausted, registry, id);
        var run, at := RunOnce(pins, manager, false, c);
      }
    }

    /**
     * The claims are needed too: an identity whose runs fail between claim and body stays runnable as long as the
     * ledger takes its claims; the first claim that is refused burns it.
     */
    method RepeatSetupFailure(manager: string, c: Circumstances, times: nat)
      requires Valid() && IsPrepared(registry, pins, pins, manager, c) && FailsInSetup(c)
      requires c.WritesRecord() && |registry.blocked| + times <= MAX_BLOCKED
      modifies this`registry, this`ledger, this`entered, this`unrecorded
      ensures Valid() && registry.current == old(registry).current && entered == old(entered)
      ensures registry.Closed(registry.current.Id()) <==>
              old(Count(ledger, registry.current.Id())) + times > CLAIM_LIMIT
    {
      ghost var id := registry.current.Id();
      ghost var claims := Count(ledger, id);
      assert IsClaimed(entered, ledger, id);
      for i := 0 to times
        invariant Valid() && registry.current == old(registry).current && entered == old(entered)
        invariant |registry.blocked| <= |old(registry).blocked| + i
        invariant Count(ledger, id) == claims + Min(i, CLAIM_LIMIT - claims)
        invariant registry.Closed(id) <==> claims + i > CLAIM_LIMIT
      {
        ghost var before, exhausted := registry, OutOfClaims(ledger, id);
        ghost var refusal := Refusal(registry, pins, pins, manager, c);
        CountLogged(ledger, !exhausted, registry, id);
        var run, at := RunOnce(pins, manager, false, c);
        WritingRunsAreRecorded(before, run, c, vocabulary);
        if run.claimed && exhausted {
          RefusedClaimBurns(before, run, at, refusal, c, vocabulary);
        }
      }
    }
  }

  datatype Command =
    | RunDriver(release: Pins, manager: string, rehearse: bool, c: Circumstances)
    | Rotate(binding: Binding)

  /** A run that is no rehearsal can write its record. */
  predicate Writes(command: Command) {
    command.RunDriver? && !command.rehearse ==> command.c.WritesRecord()
  }

  predicate AllWrite(commands: seq<Command>) {
    forall i :: 0 <= i < |commands| ==> Writes(commands[i])
  }

  /** A fault that is not named like a failure of the claim or the body, nor like the consumption record. */
  predicate IsHarmless(fault: Fault) {
    match fault
    case PhaseError(phase) => !IsBurning(phase) && phase != CONSUMED
    case _ => true
  }

  /** The claim goes through, and this step of the runtime setup is the first to fail. */
  predicate FailsAt(c: Circumstances, at: nat) {
    && CLAIM_STEP < at < BODY_STEP && c.fault(at).Some? && IsHarmless(c.fault(at).value)
    && forall m :: CLAIM_STEP <= m < at ==> c.fault(m).None?
  }

  ghost predicate FailsInSetup(c: Circumstances) {
    exists at :: FailsAt(c, at)
  }

  /** A run that is no rehearsal fails between claim and body. */
  ghost predicate IsSetupFailure(command: Command) {
    command.RunDriver? && !command.rehearse ==> FailsInSetup(command.c)
  }

  ghost predicate AllFailInSetup(commands: seq<Command>) {
    forall i :: 0 <= i < |commands| ==> IsSetupFailure(commands[i])
  }

  /** For every identity the ledger takes so many claims more. */
  ghost predicate HasClaims(ledger: seq<Identity>, more: nat) {
    forall x :: HasClaimsOf(ledger, x, more)
  }

  predicate HasClaimsOf(ledger: seq<Identity>, x: Identity, more: nat) {
    Count(ledger, x) + more <= CLAIM_LIMIT
  }

  lemma ClaimsLeft(before: seq<Identity>, after: seq<Identity>, registry: Registry, more: nat)
    requires more > 0 && HasClaims(before, more)
    requires after == before || after == Logged(before, false, registry) || after == Logged(before, true, registry)
    ensures HasClaims(after, more - 1) && !OutOfClaims(before, registry.current.Id())
  {
    var left := more - 1;
    forall x
      ensures HasClaimsOf(after, x, left)
    {
      assert HasClaimsOf(before, x, more);
      CountLogged(before, false, registry, x);
      CountLogged(before, true, registry, x);
    }
    assert HasClaimsOf(before, registry.current.Id(), more);
  }

  function Min(a: int, b: int): int {
    if a < b then a else b
  }

  /**
   * How a run is determined by its faults: whether it claims, enters, finishes and is interrupted, whether it
   * rehearses, and the phase of the first fault, which is what the receipt keeps as its driver phase.
   */
  predicate FollowsTheFaults(run: Run, at: nat, refusal: Option<string>, rehearse: bool, c: Circumstances,
                             exhausted: bool, vocabulary: set<string>)
  {
    var prepared := refusal.None? && NoFaultBefore(c, false, CLAIM_STEP);
    && (run.claimed <==> !rehearse && prepared)
    && (run.entered <==> run.claimed && NoFaultBefore(c, exhausted, BODY_STEP))
    && (run.finished <==> run.claimed && NoFaultBefore(c, exhausted, BODY_STEP + 1))
    && (run.receipt.status == Rehearsed <==> rehearse && prepared && !c.cleanupFailed)
    && if run.finished || (rehearse && prepared) then !run.interrupted
       else
         var stop := StopAt(at, refusal, c, exhausted);
         && at <= BODY_STEP && NoFaultBefore(c, exhausted, at) && stop.Some?
         && (run.interrupted <==> stop.value == Interrupt)
         && run.receipt.driverPhase == PhaseOfFault(stop.value, PhaseAt(at), vocabulary)
  }

  lemma AttemptDecides(attempted: Attempted, run: Run, at: nat, refusal: Option<string>, rehearse: bool,
                       c: Circumstances, exhausted: bool, vocabulary: set<string>)
    requires attempted.Valid(rehearse) && attempted.Follows(at, refusal, rehearse, c, exhausted)
    requires attempted.EndsIn(run, c, vocabulary)
    ensures FollowsTheFaults(run, at, refusal, rehearse, c, exhausted, vocabulary)
  {}

  /** The phase the terminal record of a claimed run carries. */
  function RecordPhase(run: Run, vocabulary: set<string>): Option<string> {
    if run.receipt.status == Passed then Some(CONSUMED)
    else if run.entered then None
    else
      var phase := run.receipt.driverPhase;
      TerminalBlockPhase(PublicPhase(
        if run.cleanupProblem && TerminalBlockPhase(phase).Some? then CLEANUP_FAILED else phase, vocabulary))
  }

  /** A claimed run's record is confirmed exactly if its write succeeds and the registry has room for it. */
  predicate IsRecorded(before: Registry, run: Run, c: Circumstances, vocabulary: set<string>) {
    run.claimed && c.WritesRecord() && before.BlockCurrent(RecordPhase(run, vocabulary)).Some?
  }

  /** The registry a run leaves behind: with its record, if it was written, even if the write was reported as failed. */
  function RegistryAfter(before: Registry, run: Run, c: Circumstances, vocabulary: set<string>): Registry {
    if run.claimed && c.ReachesTheWrite() && c.write != NotWritten then
      before.BlockCurrent(RecordPhase(run, vocabulary)).GetOr(before)
    else
      before
  }

  lemma WritingRunsAreRecorded(before: Registry, run: Run, c: Circumstances, vocabulary: set<string>)
    requires c.WritesRecord() && |before.blocked| < MAX_BLOCKED
    ensures run.claimed ==> IsRecorded(before, run, c, vocabulary)
    ensures |RegistryAfter(before, run, c, vocabulary).blocked| <= |before.blocked| + 1
  {}

  /** What one run may do to the registry: at most one record, for the current identity, if it was open and claimed. */
  predicate RegistryStep(before: Registry, after: Registry, run: Run, vocabulary: set<string>) {
    && (run.entered ==> run.claimed)
    && (run.recorded ==> run.claimed)
    && (run.claimed ==> !before.Closed(before.current.Id()))
    && (after == before || (run.claimed && Some(after) == before.BlockCurrent(RecordPhase(run, vocabulary))))
    && (run.recorded ==> Some(after) == before.BlockCurrent(RecordPhase(run, vocabulary)))
  }

  /** What the receipt and the exit code say about a run. */
  predicate ReceiptIsConsistent(run: Run, rehearse: bool) {
    var receipt := run.receipt;
    && (run.exitCode.None? <==> run.interrupted)
    && (receipt.hasHashes <==> receipt.status == Passed)
    && (rehearse ==> receipt.status in {Rehearsed, RehearsalFailed})
    && (rehearse && !run.interrupted ==>
        (run.exitCode == Some(0) <==> receipt.status == Rehearsed && run.receiptWritten))
    && (!rehearse ==>
          && (receipt.status == Passed <==> run.finished && !run.cleanupProblem)
          && (receipt.status == PreflightRejected <==> !run.claimed)
          && (run.exitCode == Some(0) <==> receipt.status == Passed && run.receiptWritten)
          && (!run.claimed ==> receipt.phase == receipt.driverPhase)
          && (run.finished ==> receipt.driverPhase == "completed")
          && (receipt.status == Passed ==> receipt.phase == "completed")
          && (run.claimed && receipt.status != Passed && run.recorded ==>
                receipt.phase == if run.finished then BODY
                                 else if run.cleanupProblem && !run.entered
                                   && TerminalBlockPhase(receipt.driverPhase).Some? then CLEANUP_FAILED
                                 else receipt.driverPhase)
          && (run.claimed && receipt.status != Passed && !run.recorded ==> receipt.phase == BLOCK_FAILED))
  }

  lemma RecordingIsAStep(before: Registry, run: Run, c: Circumstances, vocabulary: set<string>)
    requires (run.entered ==> run.claimed) && (run.claimed ==> !before.Closed(before.current.Id()))
    requires run.recorded <==> IsRecorded(before, run, c, vocabulary)
    ensures RegistryStep(before, RegistryAfter(before, run, c, vocabulary), run, vocabulary)
  {}

  lemma ConsumedIsScoped()
    ensures TerminalBlockPhase(CONSUMED) == Some(CONSUMED)
    ensures TerminalBlockPhase(CLEANUP_FAILED) == Some(CLEANUP_FAILED)
  {
    assert CONSUMED[0] == 'e' && LEDGER_CLAIM[0] == 'l' && BODY[0] == 'm' && CLEANUP_FAILED[0] == 'r';
  }

  /** The body entries of every identity stay covered by its closing record or by an unconfirmed one. */
  predicate Covered(registry: Registry, entered: seq<Identity>, unrecorded: seq<Identity>, x: Identity) {
    Count(entered, x) <= Count(unrecorded, x) + if registry.Closed(x) then 1 else 0
  }

  /** `log` with the current identity appended when `more` holds. */
  function Logged(log: seq<Identity>, more: bool, registry: Registry): seq<Identity> {
    log + if more then [registry.current.Id()] else []
  }

  ghost predicate AllCovered(registry: Registry, entered: seq<Identity>, unrecorded: seq<Identity>) {
    forall x :: Covered(registry, entered, unrecorded, x)
  }

  lemma CountLogged(log: seq<Identity>, more: bool, registry: Registry, x: Identity)
    ensures Count(Logged(log, more, registry), x) == Count(log, x) + if more && x == registry.current.Id() then 1 else 0
  {
    if more {
      assert Logged(log, more, registry)[..|log|] == log;
    } else {
      assert Logged(log, more, registry) == log;
    }
  }

  /** Every body entry was claimed, and the ledger takes no more claims than it may. */
  predicate IsClaimed(entered: seq<Identity>, ledger: seq<Identity>, x: Identity) {
    Count(entered, x) <= Count(ledger, x) <= CLAIM_LIMIT
  }

  ghost predicate AllClaimed(entered: seq<Identity>, ledger: seq<Identity>) {
    forall x :: IsClaimed(entered, ledger, x)
  }

  lemma EntriesStayClaimed(registry: Registry, entered: seq<Identity>, enters: bool, ledger: seq<Identity>,
                           claims: bool)
    requires AllClaimed(entered, ledger) && (enters ==> claims)
    requires claims ==> !OutOfClaims(ledger, registry.current.Id())
    ensures AllClaimed(Logged(entered, enters, registry), Logged(ledger, claims, registry))
  {
    forall x
      ensures IsClaimed(Logged(entered, enters, registry), Logged(ledger, claims, registry), x)
    {
      assert IsClaimed(entered, ledger, x);
      CountLogged(entered, enters, registry, x);
      CountLogged(ledger, claims, registry, x);
    }
  }

  lemma EntriesStayCovered(before: Registry, after: Registry, run: Run, vocabulary: set<string>,
                           entered: seq<Identity>, unrecorded: seq<Identity>)
    requires RegistryStep(before, after, run, vocabulary)
    requires AllCovered(before, entered, unrecorded)
    ensures AllCovered(after, Logged(entered, run.entered, before),
                       Logged(unrecorded, run.entered && !run.recorded, before))
  {
    if after != before || run.recorded {
      before.BlockCurrentAddsOneRecord(RecordPhase(run, vocabulary));
    }
    var entered' := Logged(entered, run.entered, before);
    var unrecorded' := Logged(unrecorded, run.entered && !run.recorded, before);
    forall x
      ensures Covered(after, entered', unrecorded', x)
    {
      assert Covered(before, entered, unrecorded, x);
      CountLogged(entered, run.entered, before, x);
      CountLogged(unrecorded, run.entered && !run.recorded, before, x);
    }
  }

  /** The leaf check: the identity's body was completed, and nothing burnt the identity. */
  predicate IsPassedLeaf(registry: Registry, x: Identity) {
    registry.Has(x, Some(CONSUMED)) && !registry.Has(x, None)
  }

  /** A failed run that had entered the body and could record it has burnt the identity. */
  lemma FailedBodyIsBurnt(before: Registry, after: Registry, run: Run, vocabulary: set<string>)
    requires RegistryStep(before, after, run, vocabulary)
    requires run.entered && run.recorded && run.receipt.status != Passed
    ensures after.IsUnconditionallyBlockedCurrent() && after.current == before.current
  {}

  /** A recorded passing run consumes the identity without burning it. */
  lemma PassingRunIsAPassedLeaf(before: Registry, after: Registry, run: Run, vocabulary: set<string>)
    requires RegistryStep(before, after, run, vocabulary)
    requires run.claimed && run.receipt.status == Passed
    ensures !after.Has(before.current.Id(), None)
    ensures run.recorded ==> IsPassedLeaf(after, before.current.Id())
  {}

  /** No later run burns an identity whose body has been completed. */
  lemma PassedLeavesStayPassed(before: Registry, after: Registry, run: Run, vocabulary: set<string>)
    requires RegistryStep(before, after, run, vocabulary)
    ensures forall x :: IsPassedLeaf(before, x) ==> IsPassedLeaf(after, x)
  {}

  /** Failing in this phase burns the identity: the claim, the body, or a step inside the body. */
  predicate IsBurning(phase: string) {
    phase == LEDGER_CLAIM || phase == BODY || "m04_" <= phase || "m05_" <= phase
  }

  /** Only a burning phase that is public is recorded without a scope. */
  lemma ScopeOfARecord(phase: string, vocabulary: set<string>)
    ensures TerminalBlockPhase(phase) == if IsBurning(phase) then None else Some(phase)
    ensures TerminalBlockPhase(PublicPhase(phase, vocabulary)).None? <==> IsBurning(phase) && phase in vocabulary
    ensures TerminalBlockPhase(PublicPhase(phase, vocabulary)) == Some(CONSUMED) ==> phase == CONSUMED
  {
    assert CONTRACT_FAILED[0] == 'd' && CONSUMED[0] == 'e';
    assert LEDGER_CLAIM[0] == 'l' && BODY[0] == 'm' && "m04_"[0] == 'm' && "m05_"[0] == 'm';
  }

  /** No step of the runtime setup is burning. */
  lemma SetupDoesNotBurn(phase: string)
    requires phase in RUNTIME_STEPS
    ensures !IsBurning(phase) && phase != CONSUMED
  {
    assert phase[0] in "rmp" && phase[1] in "uai";
    assert LEDGER_CLAIM[0] == 'l' && BODY[1] == '0' && CONSUMED[0] == 'e';
    assert "m04_"[1] == '0' && "m05_"[1] == '0';
  }

  /** A record for this phase closes the identity. */
  predicate Closes(phase: string, cleanupProblem: bool, vocabulary: set<string>) {
    (IsBurning(phase) && phase in vocabulary) || (phase == CONSUMED && !cleanupProblem)
  }

  /**
   * A run that claimed an identity and never entered the body stopped at the claim or in the runtime setup. It closes
   * that identity exactly if its record is written and the phase its fault is caught in is a burning one; it never
   * changes what another identity may do.
   */
  lemma InfrastructureFailureLeavesRunnable(before: Registry, run: Run, at: nat, refusal: Option<string>,
                                            c: Circumstances, exhausted: bool, vocabulary: set<string>, x: Identity)
    requires IsVocabulary(vocabulary) && FollowsTheFaults(run, at, refusal, false, c, exhausted, vocabulary)
    requires run.claimed && !run.entered && run.cleanupProblem == c.CleanupProblem()
    requires run.receipt.status != Passed && !before.Closed(before.current.Id())
    ensures CLAIM_STEP <= at < BODY_STEP && c.FaultAt(at, exhausted).Some?
    ensures var phase := PhaseOfFault(c.FaultAt(at, exhausted).value, PhaseAt(at), vocabulary);
            var after := RegistryAfter(before, run, c, vocabulary);
            after.Closed(x) <==>
              || before.Closed(x)
              || (&& x == before.current.Id() && c.ReachesTheWrite() && c.write != NotWritten
                  && |before.blocked| < MAX_BLOCKED && Closes(phase, c.CleanupProblem(), vocabulary))
  {
    StoppedBeforeTheBody(run, at, refusal, c, exhausted, vocabulary);
    var phase := run.receipt.driverPhase;
    ScopeOfARecord(phase, vocabulary);
    ScopeOfARecord(CLEANUP_FAILED, vocabulary);
    ConsumedIsScoped();
    assert CLEANUP_FAILED[0] == 'r' && CONSUMED[0] == 'e';
    if before.BlockCurrent(RecordPhase(run, vocabulary)).Some? {
      before.BlockCurrentAddsOneRecord(RecordPhase(run, vocabulary));
    }
  }

  lemma StoppedBeforeTheBody(run: Run, at: nat, refusal: Option<string>, c: Circumstances, exhausted: bool,
                             vocabulary: set<string>)
    requires FollowsTheFaults(run, at, refusal, false, c, exhausted, vocabulary) && run.claimed && !run.entered
    ensures CLAIM_STEP <= at < BODY_STEP && c.FaultAt(at, exhausted).Some?
    ensures StopAt(at, refusal, c, exhausted) == c.FaultAt(at, exhausted)
  {
    assert c.fault(0).None? && (at < CLAIM_STEP ==> c.fault(at).None?);
  }

  /** Failing between claim and body leaves every identity as runnable as it was. */
  lemma SetupFailureLeavesRunnable(before: Registry, run: Run, at: nat, refusal: Option<string>, rehearse: bool,
                                   c: Circumstances, exhausted: bool, vocabulary: set<string>)
    requires IsVocabulary(vocabulary) && FollowsTheFaults(run, at, refusal, rehearse, c, exhausted, vocabulary)
    requires run.cleanupProblem == c.CleanupProblem() && ReceiptIsConsistent(run, rehearse)
    requires run.claimed ==> !before.Closed(before.current.Id())
    ensures FailsInSetup(c) && !exhausted ==>
              forall x :: RegistryAfter(before, run, c, vocabulary).Closed(x) <==> before.Closed(x)
  {
    if run.claimed && FailsInSetup(c) && !exhausted {
      var first :| FailsAt(c, first);
      assert !NoFaultBefore(c, false, BODY_STEP);
      StoppedBeforeTheBody(run, at, refusal, c, false, vocabulary);
      assert at == first;
      HarmlessPhase(c.fault(at).value, at, vocabulary);
      forall x
        ensures RegistryAfter(before, run, c, vocabulary).Closed(x) <==> before.Closed(x)
      {
        InfrastructureFailureLeavesRunnable(before, run, at, refusal, c, false, vocabulary, x);
      }
    }
  }

  lemma HarmlessPhase(fault: Fault, at: nat, vocabulary: set<string>)
    requires CLAIM_STEP < at < BODY_STEP && IsHarmless(fault)
    ensures var phase := PhaseOfFault(fault, PhaseAt(at), vocabulary); !IsBurning(phase) && phase != CONSUMED
  {
    SetupDoesNotBurn(RUNTIME_STEPS[at - CLAIM_STEP - 1]);
    ScopeOfARecord(CONTRACT_FAILED, vocabulary);
    assert CONTRACT_FAILED[0] == 'd' && CONSUMED[0] == 'e' && LEDGER_CLAIM[0] == 'l' && BODY[0] == 'm';
    assert "m04_"[0] == 'm' && "m05_"[0] == 'm';
  }

  /** A claim refused by the ledger burns the identity, if its record is written. */
  lemma RefusedClaimBurns(before: Registry, run: Run, at: nat, refusal: Option<string>, c: Circumstances,
                          vocabulary: set<string>)
    requires IsVocabulary(vocabulary) && FollowsTheFaults(run, at, refusal, false, c, true, vocabulary)
    requires run.claimed && run.cleanupProblem == c.CleanupProblem() && ReceiptIsConsistent(run, false)
    requires !before.Closed(before.current.Id()) && c.fault(CLAIM_STEP).None?
    requires c.WritesRecord() && |before.blocked| < MAX_BLOCKED
    ensures !run.entered && RegistryAfter(before, run, c, vocabulary).Closed(before.current.Id())
  {
    StoppedBeforeTheBody(run, at, refusal, c, true, vocabulary);
    assert at == CLAIM_STEP;
    InfrastructureFailureLeavesRunnable(before, run, at, refusal, c, true, vocabulary, before.current.Id());
  }
}
