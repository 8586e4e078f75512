/**
 * The limit on concurrent WebSocket authorisations. Handlers interleave on one event loop: a handler enters in one step
 * and leaves in another, whether its authorisation ends, fails or is cancelled.
 */
module WebSocketAdmission {
  import opened Common

  const DEFAULT_LIMIT := 64
  const LOWEST_LIMIT := 1
  const HIGHEST_LIMIT := 10_000

  /** The limit read from the environment; none if it is unset, blank or no number. */
  function ResolveLimit(configured: Option<int>): (limit: nat)
    ensures LOWEST_LIMIT <= limit <= HIGHEST_LIMIT
  {
    match configured
    case None => DEFAULT_LIMIT
    case Some(value) =>
      if value < LOWEST_LIMIT then LOWEST_LIMIT else if value > HIGHEST_LIMIT then HIGHEST_LIMIT else value
  }

  /** What is logged when refusals begin and end. */
  datatype Entry = Started(pending: nat) | Ended(total: nat)

  datatype Step =
    | Enter(handler: nat, configured: Option<int>)
    | Leave(handler: nat)

  /** The handlers whose authorisation is under way, and what was refused and logged so far. */
  datatype State = State(inFlight: set<nat>, shedding: bool, shedCount: nat, log: seq<Entry>) {

    predicate Refuses(step: Step) {
      step.Enter? && step.handler !in inFlight && |inFlight| >= ResolveLimit(step.configured)
    }

    function After(step: Step): State {
      match step
      case Enter(handler, configured) =>
        if handler in inFlight then
          this                                      // a handler enters once
        else if |inFlight| >= ResolveLimit(configured) then
          State(inFlight, true, shedCount + 1, if shedding then log else log + [Started(|inFlight|)])
        else
          State(inFlight + {handler}, false, shedCount, if shedding then log + [Ended(shedCount)] else log)
      case Leave(handler) => this.(inFlight := inFlight - {handler})
    }
  }

  const IDLE := State({}, false, 0, [])

  function Run(schedule: seq<Step>): State {
    if schedule == [] then IDLE else Run(schedule[..|schedule| - 1]).After(schedule[|schedule| - 1])
  }

  /** How many arrivals of the schedule are refused. */
  function Refusals(schedule: seq<Step>): nat {
    if schedule == [] then
      0
    else
      var earlier, step := schedule[..|schedule| - 1], schedule[|schedule| - 1];
      Refusals(earlier) + if Run(earlier).Refuses(step) then 1 else 0
  }

  /** Beginnings and ends alternate, from a beginning on. */
  predicate Alternates(log: seq<Entry>) {
    && (log != [] ==> log[0].Started?)
    && forall i, j :: 0 <= i && j == i + 1 < |log| ==> (log[i].Started? <==> log[j].Ended?)
  }

  /** Every beginning is logged at a full house, and every end with at least one refusal. */
  predicate IsJustified(log: seq<Entry>, lowest: nat) {
    forall i :: 0 <= i < |log| ==> if log[i].Started? then log[i].pending >= lowest else log[i].total > 0
  }

  predicate LimitsAreBetween(schedule: seq<Step>, lowest: nat, highest: nat) {
    forall i :: 0 <= i < |schedule| && schedule[i].Enter? ==> lowest <= ResolveLimit(schedule[i].configured) <= highest
  }

  /** What is true of the gate after any schedule. */
  predicate IsSound(now: State, refusals: nat, lowest: nat, highest: nat) {
    && |now.inFlight| <= highest
    && now.shedCount == refusals
    && Alternates(now.log)
    && IsJustified(now.log, lowest)
    && (now.shedding <==> now.log != [] && now.log[|now.log| - 1].Started?)
    && (now.shedding ==> now.shedCount > 0)
  }

  lemma EnteringKeepsItSound(now: State, handler: nat, configured: Option<int>, refusals: nat, lowest: nat,
                             highest: nat)
    requires IsSound(now, refusals, lowest, highest) && lowest <= ResolveLimit(configured) <= highest
    ensures var step := Enter(handler, configured);
            IsSound(now.After(step), refusals + if now.Refuses(step) then 1 else 0, lowest, highest)
  {}

  lemma LeavingKeepsItSound(now: State, handler: nat, refusals: nat, lowest: nat, highest: nat)
    requires IsSound(now, refusals, lowest, highest)
    ensures IsSound(now.After(Leave(handler)), refusals, lowest, highest)
  {}

  /**
   * In every interleaving, at most `highest` authorisations are under way at once; refusals are counted one by one and
   * their beginnings and ends alternate.
   */
  lemma {:induction false} EveryInterleaving(schedule: seq<Step>, lowest: nat, highest: nat)
    requires LimitsAreBetween(schedule, lowest, highest)
    ensures IsSound(Run(schedule), Refusals(schedule), lowest, highest)
  {
    if schedule != [] {
      var earlier, step := schedule[..|schedule| - 1], schedule[|schedule| - 1];
      EveryInterleaving(earlier, lowest, highest);
      match step
      case Enter(handler, configured) =>
        EnteringKeepsItSound(Run(earlier), handler, configured, Refusals(earlier), lowest, highest);
      case Leave(handler) => LeavingKeepsItSound(Run(earlier), handler, Refusals(earlier), lowest, highest);
    }
  }

  /** The handler is admitted by this step. */
  predicate EntersAt(schedule: seq<Step>, handler: nat, i: nat) {
    && i < |schedule| && schedule[i].Enter? && schedule[i].handler == handler
    && handler !in Run(schedule[..i]).inFlight && !Run(schedule[..i]).Refuses(schedule[i])
  }

  predicate HasNotLeftSince(schedule: seq<Step>, handler: nat, i: nat) {
    forall j :: i < j < |schedule| ==> schedule[j] != Leave(handler)
  }

  predicate IsInside(schedule: seq<Step>, handler: nat, i: nat) {
    EntersAt(schedule, handler, i) && HasNotLeftSince(schedule, handler, i)
  }

  lemma InsideOneStepLonger(schedule: seq<Step>, handler: nat, i: nat)
    requires schedule != [] && i < |schedule| - 1
    ensures IsInside(schedule, handler, i) <==>
              IsInside(schedule[..|schedule| - 1], handler, i) && schedule[|schedule| - 1] != Leave(handler)
  {
    var earlier := schedule[..|schedule| - 1];
    assert earlier[..i] == schedule[..i];
    assert forall j :: i < j < |earlier| ==> earlier[j] == schedule[j];
  }

  /** An authorisation is in flight exactly if its handler was admitted and has not left since. */
  lemma {:induction false} InFlightIsAdmittedAndNotLeft(schedule: seq<Step>, handler: nat)
    ensures handler in Run(schedule).inFlight <==> exists i :: 0 <= i < |schedule| && IsInside(schedule, handler, i)
  {
    if schedule != [] {
      var last := |schedule| - 1;
      var earlier, step := schedule[..last], schedule[last];
      InFlightIsAdmittedAndNotLeft(earlier, handler);
      forall i | 0 <= i < last
        ensures IsInside(schedule, handler, i) <==> IsInside(earlier, handler, i) && step != Leave(handler)
      {
        InsideOneStepLonger(schedule, handler, i);
      }
      if handler in Run(schedule).inFlight {
        if handler in Run(earlier).inFlight {
          var i :| 0 <= i < last && IsInside(earlier, handler, i);
          assert IsInside(schedule, handler, i);
        } else {
          assert IsInside(schedule, handler, last);
        }
      }
    }
  }

  /** The module's globals. */
  class Gate {
    var pending: nat
    var shedding: bool
    var shedCount: nat
    ghost var state: State

    ghost predicate Valid()
      reads this
    {
      pending == |state.inFlight| && shedding == state.shedding && shedCount == state.shedCount
    }

    constructor ()
      ensures Valid() && state == IDLE
    {
      pending, shedding, shedCount, state := 0, false, 0, IDLE;
    }

    /** `_authorize_with_limit` up to its one `await`; the check and the increment are not interrupted. */
    method Begin(handler: nat, configured: Option<int>) returns (granted: bool, logged: Option<Entry>)
      requires Valid() && handler !in state.inFlight
      modifies this
      ensures Valid()
      ensures state == old(state).After(Enter(handler, configured))
      ensures granted <==> !old(state).Refuses(Enter(handler, configured))
      ensures state.log == old(state).log + if logged.Some? then [logged.value] else []
    {
      logged := None;
      if pending >= ResolveLimit(configured) {
        shedCount := shedCount + 1;
        if !shedding {
          shedding := true;
          logged := Some(Started(pending));
        }
        granted := false;
      } else {
        if shedding {
          shedding := false;
          logged := Some(Ended(shedCount));
        }
        pending := pending + 1;
        granted := true;
      }
      state := state.After(Enter(handler, configured));
    }

    /** The `finally` of `_authorize_with_limit`, for a handler that was let in. */
    method End(handler: nat)
      requires Valid() && handler in state.inFlight
      modifies this
      ensures Valid()
      ensures state == old(state).After(Leave(handler))
    {
      assert state.inFlight == (state.inFlight - {handler}) + {handler};
      pending := pending - 1;
      state := state.After(Leave(handler));
    }
  }

  /** Any interleaving, played on the module's globals. */
  method Play(schedule: seq<Step>) returns (gate: Gate)
    ensures fresh(gate) && gate.Valid() && gate.state == Run(schedule)
    ensures gate.pending == |Run(schedule).inFlight| <= HIGHEST_LIMIT
  {
    gate := new Gate();
    var inside: set<nat> := {};
    for i := 0 to |schedule|
      invariant fresh(gate) && gate.Valid() && gate.state == Run(schedule[..i]) && inside == gate.state.inFlight
    {
      assert schedule[..i + 1][..i] == schedule[..i];
      var step := schedule[i];
      match step
      case Enter(handler, configured) =>
        if handler !in inside {
          var granted, logged := gate.Begin(handler, configured);
          if granted {
            inside := inside + {handler};
          }
        }
      case Leave(handler) =>
        if handler in inside {
          gate.End(handler);
          inside := inside - {handler};
        } else {
          assert gate.state.inFlight - {handler} == gate.state.inFlight;
        }
    }
    assert schedule[..|schedule|] == schedule;
    EveryInterleaving(schedule, LOWEST_LIMIT, HIGHEST_LIMIT);
  }
}
