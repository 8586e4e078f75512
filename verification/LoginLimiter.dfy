/**
 * The login limiter: failures are counted from the audit rows of the last ten minutes, since the last success. Times
 * are in microseconds; the rows are one client's, whose attempts follow one another.
 */
module LoginLimiter {
  import opened Common

  const SECOND := 1_000_000
  const WINDOW := 10 * 60 * SECOND
  const LIMIT := 5

  /** What an audit row says about a login; a denied one was turned away by the limiter. */
  datatype Outcome = Succeeded | InvalidCredentials | Misconfigured | RateLimited

  datatype Row = Row(at: int, outcome: Outcome) {
    predicate Counts() {
      outcome == InvalidCredentials || outcome == Misconfigured
    }
  }

  predicate InOrder(rows: seq<Row>) {
    forall i, j :: 0 <= i < j < |rows| ==> rows[i].at <= rows[j].at
  }

  function Max(a: int, b: int): int {
    if a < b then b else a
  }

  /** The latest success no earlier than `from`. */
  function LastSuccess(rows: seq<Row>, from: Option<int>): (latest: Option<int>)
    ensures latest.Some? ==> exists row :: row in rows && row.outcome == Succeeded && row.at == latest.value
    ensures latest.Some? ==> from.None? || from.value <= latest.value
    ensures forall row :: row in rows && row.outcome == Succeeded && (from.None? || from.value <= row.at) ==>
                            latest.Some? && row.at <= latest.value
  {
    if rows == [] then
      None
    else
      var row, earlier := rows[|rows| - 1], LastSuccess(rows[..|rows| - 1], from);
      assert forall other :: other in rows <==> other in rows[..|rows| - 1] || other == row;
      if row.outcome == Succeeded && (from.None? || from.value <= row.at) then
        Some(if earlier.Some? then Max(earlier.value, row.at) else row.at)
      else
        earlier
  }

  /** The times of the failures after `start`, in order. */
  function FailureTimes(rows: seq<Row>, start: Option<int>): seq<int> {
    if rows == [] then
      []
    else
      var row, earlier := rows[|rows| - 1], FailureTimes(rows[..|rows| - 1], start);
      if row.Counts() && (start.None? || start.value < row.at) then earlier + [row.at] else earlier
  }

  function FailuresSinceSuccess(rows: seq<Row>): seq<int> {
    FailureTimes(rows, LastSuccess(rows, None))
  }

  /** The failures the limiter counts: those in the window, behind the last success in it. */
  function Counted(rows: seq<Row>, now: int): seq<int> {
    var windowStart := now - WINDOW;
    var lastSuccess := LastSuccess(rows, Some(windowStart));
    FailureTimes(rows, Some(if lastSuccess.Some? then Max(windowStart, lastSuccess.value) else windowStart))
  }

  /** `check_login_rate_limit` on these rows: the seconds to wait, or none. */
  function Check(rows: seq<Row>, now: int): Option<int> {
    var failures := Counted(rows, now);
    if |failures| < LIMIT then None else Some(Max((failures[0] + WINDOW - now) / SECOND, 1))
  }

  /** How long the oldest failure that is counted now stays in the window. */
  function Remaining(rows: seq<Row>, now: int): int
    requires Check(rows, now).Some?
  {
    Counted(rows, now)[0] + WINDOW - now
  }

  datatype Verdict = Right | Wrong | Unconfigured

  /** The row an attempt leaves, given when it was checked and what the password check would say. */
  function RowOf(rows: seq<Row>, checkedAt: int, verdict: Verdict, recordedAt: int): Row {
    Row(recordedAt,
        if Check(rows, checkedAt).Some? then RateLimited
        else match verdict case Right => Succeeded case Wrong => InvalidCredentials case Unconfigured => Misconfigured)
  }

  /** Six failures never fit into one window. */
  predicate Spaced(times: seq<int>) {
    forall i, j :: 0 <= i && i + LIMIT <= j < |times| ==> times[i] + WINDOW <= times[j]
  }

  lemma SpacedPair(times: seq<int>, i: nat, j: nat)
    requires Spaced(times) && i + LIMIT <= j < |times|
    ensures times[i] + WINDOW <= times[j]
  {}

  lemma {:induction false} FailureTimesAreInOrder(rows: seq<Row>, start: Option<int>)
    requires InOrder(rows)
    ensures forall i, j :: 0 <= i < j < |FailureTimes(rows, start)| ==>
              FailureTimes(rows, start)[i] <= FailureTimes(rows, start)[j]
    ensures rows != [] ==> forall i :: 0 <= i < |FailureTimes(rows, start)| ==>
              FailureTimes(rows, start)[i] <= rows[|rows| - 1].at
    ensures start.Some? ==> forall i :: 0 <= i < |FailureTimes(rows, start)| ==>
              start.value < FailureTimes(rows, start)[i]
  {
    if rows != [] {
      FailureTimesAreInOrder(rows[..|rows| - 1], start);
    }
  }

  predicate IsAfter(time: int, start: Option<int>) {
    start.None? || start.value < time
  }

  /** A later start keeps a tail of the failures: those after it. */
  lemma {:induction false} LaterStart(rows: seq<Row>, start: Option<int>, later: int) returns (dropped: nat)
    requires InOrder(rows) && (start.Some? ==> start.value <= later)
    ensures dropped <= |FailureTimes(rows, start)|
    ensures FailureTimes(rows, Some(later)) == FailureTimes(rows, start)[dropped..]
    ensures forall i :: 0 <= i < dropped ==> FailureTimes(rows, start)[i] <= later
  {
    if rows == [] {
      dropped := 0;
    } else {
      var earlier, row := rows[..|rows| - 1], rows[|rows| - 1];
      dropped := LaterStart(earlier, start, later);
      if row.Counts() && IsAfter(row.at, start) {
        var times := FailureTimes(earlier, start);
        assert FailureTimes(rows, start) == times + [row.at];
        FailureTimesAreInOrder(rows, start);
        if later < row.at {
          AppendBehind(times, dropped, row.at);
        } else {
          EverythingDropped(rows, row.at, later);
          dropped := |times| + 1;
        }
      }
    }
  }

  lemma AppendBehind(times: seq<int>, dropped: nat, time: int)
    requires dropped <= |times|
    ensures (times + [time])[dropped..] == times[dropped..] + [time]
  {}

  lemma EverythingDropped(rows: seq<Row>, latest: int, later: int)
    requires InOrder(rows) && latest <= later && forall row :: row in rows ==> row.at <= latest
    ensures FailureTimes(rows, Some(later)) == []
  {}

  /** What the limiter counts are the failures since the last success that are still in the window. */
  lemma CountedAreATail(rows: seq<Row>, now: int) returns (dropped: nat)
    requires InOrder(rows)
    ensures dropped <= |FailuresSinceSuccess(rows)| && Counted(rows, now) == FailuresSinceSuccess(rows)[dropped..]
    ensures forall i :: 0 <= i < dropped ==> FailuresSinceSuccess(rows)[i] <= now - WINDOW
    ensures forall i :: dropped <= i < |FailuresSinceSuccess(rows)| ==> now - WINDOW < FailuresSinceSuccess(rows)[i]
  {
    var last, recent := LastSuccess(rows, None), LastSuccess(rows, Some(now - WINDOW));
    var start := if recent.Some? then Max(now - WINDOW, recent.value) else now - WINDOW;
    assert last.Some? ==> (recent.Some? <==> now - WINDOW <= last.value);
    assert last.Some? && recent.Some? ==> recent.value == last.value;
    dropped := LaterStart(rows, last, start);
    FailureTimesAreInOrder(rows, last);
    FailureTimesAreInOrder(rows, Some(start));
  }

  lemma SuccessForgetsFailures(rows: seq<Row>, row: Row)
    requires InOrder(rows) && row.outcome == Succeeded && forall earlier :: earlier in rows ==> earlier.at <= row.at
    ensures FailuresSinceSuccess(rows + [row]) == []
  {
    var next := rows + [row];
    assert next[..|next| - 1] == rows;
    assert LastSuccess(next, None) == Some(row.at);
    EverythingDropped(rows, row.at, row.at);
  }

  lemma FailureIsAppended(rows: seq<Row>, row: Row)
    requires row.outcome != Succeeded
    ensures FailuresSinceSuccess(rows + [row]) == FailuresSinceSuccess(rows)
            || (row.Counts() && FailuresSinceSuccess(rows + [row]) == FailuresSinceSuccess(rows) + [row.at])
  {}

  /** A failure is only recorded if fewer than five are in the window it was checked against. */
  lemma FailureKeepsSpacing(rows: seq<Row>, checkedAt: int, recordedAt: int)
    requires InOrder(rows) && Spaced(FailuresSinceSuccess(rows)) && Check(rows, checkedAt).None?
    requires checkedAt <= recordedAt
    ensures Spaced(FailuresSinceSuccess(rows) + [recordedAt])
  {
    var times := FailuresSinceSuccess(rows);
    var dropped := CountedAreATail(rows, checkedAt);
    assert |times[dropped..]| < LIMIT;
  }

  /** One more attempt keeps the failures since the last success spaced out. */
  lemma AttemptKeepsSpacing(rows: seq<Row>, checkedAt: int, verdict: Verdict, recordedAt: int)
    requires InOrder(rows) && Spaced(FailuresSinceSuccess(rows))
    requires (rows != [] ==> rows[|rows| - 1].at <= checkedAt) && checkedAt <= recordedAt
    ensures var next := rows + [RowOf(rows, checkedAt, verdict, recordedAt)];
            InOrder(next) && Spaced(FailuresSinceSuccess(next))
  {
    var row := RowOf(rows, checkedAt, verdict, recordedAt);
    assert forall i :: 0 <= i < |rows| ==> rows[i].at <= checkedAt;
    if row.outcome == Succeeded {
      SuccessForgetsFailures(rows, row);
    } else {
      FailureIsAppended(rows, row);
      if row.Counts() {
        FailureKeepsSpacing(rows, checkedAt, recordedAt);
      }
    }
  }

  /** At most five counted failures since the last success lie in any window of ten minutes. */
  lemma AtMostFiveInAnyWindow(rows: seq<Row>, from: int)
    requires InOrder(rows) && Spaced(FailuresSinceSuccess(rows))
    ensures var times := FailuresSinceSuccess(rows);
            |set i | 0 <= i < |times| && from < times[i] <= from + WINDOW| <= LIMIT
  {
    var times := FailuresSinceSuccess(rows);
    FailureTimesAreInOrder(rows, LastSuccess(rows, None));
    var inside := set i | 0 <= i < |times| && from < times[i] <= from + WINDOW;
    var first := 0;
    while first < |times| && times[first] <= from
      invariant first <= |times|
      invariant forall i :: 0 <= i < first ==> times[i] <= from
    {
      first := first + 1;
    }
    var five := {first, first + 1, first + 2, first + 3, first + 4};
    assert inside <= five;
    SubsetIsNoLarger(inside, five);
  }

  lemma SubsetIsNoLarger(small: set<int>, large: set<int>)
    requires small <= large
    ensures |small| <= |large|
  {
    assert small + (large - small) == large;
  }

  /** A reported wait is between one second and ten minutes. */
  lemma WaitIsBounded(rows: seq<Row>, now: int)
    requires InOrder(rows) && (rows != [] ==> rows[|rows| - 1].at <= now)
    ensures Check(rows, now).Some? ==> 1 <= Check(rows, now).value <= 600
  {
    var dropped := CountedAreATail(rows, now);
    FailureTimesAreInOrder(rows, LastSuccess(rows, None));
  }

  /** `denied` are rows of attempts the limiter turned away. */
  predicate AllDenied(denied: seq<Row>) {
    forall row :: row in denied ==> row.outcome == RateLimited
  }

  /** Denied attempts are not counted. */
  lemma {:induction false} DeniedAttemptsDoNotCount(rows: seq<Row>, denied: seq<Row>, now: int)
    requires AllDenied(denied)
    ensures Check(rows + denied, now) == Check(rows, now)
  {
    DeniedChangeNothing(rows, denied, Some(now - WINDOW), None);
    var last := LastSuccess(rows, Some(now - WINDOW));
    DeniedChangeNothing(rows, denied, None, Some(if last.Some? then Max(now - WINDOW, last.value) else now - WINDOW));
  }

  lemma {:induction false} DeniedChangeNothing(rows: seq<Row>, denied: seq<Row>, from: Option<int>, start: Option<int>)
    requires AllDenied(denied)
    ensures LastSuccess(rows + denied, from) == LastSuccess(rows, from)
    ensures FailureTimes(rows + denied, start) == FailureTimes(rows, start)
  {
    if denied == [] {
      assert rows + denied == rows;
    } else {
      DeniedChangeNothing(rows, denied[..|denied| - 1], from, start);
      assert (rows + denied)[..|rows + denied| - 1] == rows + denied[..|denied| - 1];
      assert (rows + denied)[|rows + denied| - 1] == denied[|denied| - 1];
    }
  }

  /**
   * Turned away at `now` with a wait, a client that keeps trying in vain is let in at a later time exactly if the
   * oldest failure counted at `now` has left the window by then.
   */
  lemma LetInWhenTheOldestLeaves(rows: seq<Row>, now: int, denied: seq<Row>, later: int)
    requires InOrder(rows) && Spaced(FailuresSinceSuccess(rows)) && (rows != [] ==> rows[|rows| - 1].at <= now)
    requires Check(rows, now).Some? && AllDenied(denied) && now <= later
    ensures 0 < Remaining(rows, now) <= WINDOW && Check(rows, now).value == Max(Remaining(rows, now) / SECOND, 1)
    ensures Check(rows + denied, later).None? <==> now + Remaining(rows, now) <= later
  {
    var dropped := CountedAreATail(rows, now);
    var times := FailuresSinceSuccess(rows);
    FailureTimesAreInOrder(rows, LastSuccess(rows, None));
    DeniedAttemptsDoNotCount(rows, denied, later);
    var laterDropped := CountedAreATail(rows, later);
    // no sixth failure is counted at `now`
    assert rows != [] && forall i :: 0 <= i < |times| ==> times[i] <= now;
    if dropped + LIMIT < |times| {
      SpacedPair(times, dropped, dropped + LIMIT);
      assert false;
    }
    if now + Remaining(rows, now) <= later {
      assert laterDropped > dropped;
    } else {
      assert laterDropped == dropped;
    }
  }

  /** One second after the reported wait the client is let in. */
  lemma LetInAfterTheWait(rows: seq<Row>, now: int, denied: seq<Row>, later: int)
    requires InOrder(rows) && Spaced(FailuresSinceSuccess(rows)) && (rows != [] ==> rows[|rows| - 1].at <= now)
    requires Check(rows, now).Some? && AllDenied(denied)
    requires now + (Check(rows, now).value + 1) * SECOND <= later
    ensures Check(rows + denied, later).None?
  {
    LetInWhenTheOldestLeaves(rows, now, denied, later);
  }

  /**
   * At the reported wait itself the client is let in exactly if the remaining time was whole seconds, or less than one:
   * the wait is rounded down, but to no less than a second.
   */
  lemma LetInAtTheWait(rows: seq<Row>, now: int, denied: seq<Row>)
    requires InOrder(rows) && Spaced(FailuresSinceSuccess(rows)) && (rows != [] ==> rows[|rows| - 1].at <= now)
    requires Check(rows, now).Some? && AllDenied(denied)
    ensures Check(rows + denied, now + Check(rows, now).value * SECOND).None?
       <==> Remaining(rows, now) % SECOND == 0 || Remaining(rows, now) < SECOND
  {
    LetInWhenTheOldestLeaves(rows, now, denied, now);
    LetInWhenTheOldestLeaves(rows, now, denied, now + Check(rows, now).value * SECOND);
  }

  /** Right after the reported wait it need not be: the wait is rounded down to whole seconds. */
  lemma TheWaitAloneMayBeTooShort()
    ensures var rows := seq(5, i => Row(i, InvalidCredentials));
            var now := 5;
            && Spaced(FailuresSinceSuccess(rows))
            && Check(rows, now) == Some(599)
            && Check(rows, now + 599 * SECOND).Some?
  {
    var rows := seq(5, i => Row(i, InvalidCredentials));
    FiveFailures(rows, 5);
    FiveFailures(rows, 5 + 599 * SECOND);
  }

  lemma FiveFailures(rows: seq<Row>, now: int)
    requires |rows| == 5 && forall i :: 0 <= i < 5 ==> rows[i] == Row(i, InvalidCredentials)
    requires now < WINDOW
    ensures FailuresSinceSuccess(rows) == [0, 1, 2, 3, 4]
    ensures Check(rows, now) == Some(Max((WINDOW - now) / SECOND, 1))
  {
    var start := Some(now - WINDOW);
    forall from: Option<int>
      ensures LastSuccess(rows, from) == None
    {}
    assert FailureTimes(rows[..0], start) == [] && FailureTimes(rows[..0], None) == [];
    assert rows[..1][..0] == rows[..0] && rows[..2][..1] == rows[..1];
    assert rows[..3][..2] == rows[..2] && rows[..4][..3] == rows[..3];
    assert FailureTimes(rows[..1], start) == [0] && FailureTimes(rows[..1], None) == [0];
    assert FailureTimes(rows[..2], start) == [0, 1] && FailureTimes(rows[..2], None) == [0, 1];
    assert FailureTimes(rows[..3], start) == [0, 1, 2] && FailureTimes(rows[..3], None) == [0, 1, 2];
    assert FailureTimes(rows[..4], start) == [0, 1, 2, 3] && FailureTimes(rows[..4], None) == [0, 1, 2, 3];
  }

  /** The audit rows of one client, and the login route that reads and writes them. */
  class Login {
    var rows: seq<Row>

    constructor ()
      ensures Valid() && rows == []
    {
      rows := [];
    }

    /** Kept by every attempt, whatever the times and verdicts. */
    ghost predicate Valid()
      reads this
    {
      InOrder(rows) && Spaced(FailuresSinceSuccess(rows))
    }

    /** One attempt; the password is only checked when the limiter lets the client in. */
    method Attempt(checkedAt: int, verdict: Verdict, recordedAt: int) returns (retryAfter: Option<int>)
      requires Valid() && (rows != [] ==> rows[|rows| - 1].at <= checkedAt) && checkedAt <= recordedAt
      modifies this
      ensures Valid()
      ensures retryAfter == Check(old(rows), checkedAt)
      ensures retryAfter.Some? ==> 1 <= retryAfter.value <= 600
      ensures rows == old(rows) + [RowOf(old(rows), checkedAt, verdict, recordedAt)]
    {
      retryAfter := Check(rows, checkedAt);
      AttemptKeepsSpacing(rows, checkedAt, verdict, recordedAt);
      WaitIsBounded(rows, checkedAt);
      if retryAfter.Some? {
        rows := rows + [Row(recordedAt, RateLimited)];
      } else if verdict == Unconfigured {
        rows := rows + [Row(recordedAt, Misconfigured)];
      } else if verdict == Wrong {
        rows := rows + [Row(recordedAt, InvalidCredentials)];
      } else {
        rows := rows + [Row(recordedAt, Succeeded)];
      }
    }
  }
}
