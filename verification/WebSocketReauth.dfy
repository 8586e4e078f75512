/**
 * The two WebSocket loops, between the moment they set their first re-authorisation deadline and the moment they close.
 * A wake is one return of `asyncio.wait` with everything the loop then observes.
 */
module WebSocketReauth {
  import opened Common

  const INTERVAL := 60.0
  const JITTER_RATIO := 0.2
  const LONGEST := 72.0

  /** `_next_reauth_deadline` at this moment, for a random number below one. */
  function NextDeadline(now: real, random: real): (deadline: real)
    requires 0.0 <= random < 1.0
    ensures now + INTERVAL <= deadline < now + LONGEST
  {
    now + INTERVAL + INTERVAL * JITTER_RATIO * random
  }

  datatype Frame = Quiet | Data | Disconnect

  datatype Read = Waiting | Chunk(text: string) | Eof | Broken

  /** What revalidating Origin and cookie would give. */
  datatype Check = Refused | Accepted(expiresAt: real) | Failed

  /**
   * `now` is the loop's clock when it is compared with the deadline, `setAt` when a new deadline is set, `utc` the wall
   * clock compared with the session's expiry.
   */
  datatype Wake = Wake(now: real, frame: Frame, read: Read, setAt: real, random: real, utc: real, check: Check) {
    predicate Valid() {
      now <= setAt && 0.0 <= random < 1.0
    }
  }

  datatype Code = Normal | AuthRequired | InternalError

  datatype Message = Log(text: string) | StreamEnded | StreamFailed

  /** A loop's variables; closed once it has left the loop. */
  datatype Socket = Socket(deadline: real, expiresAt: real, sent: seq<Message>, closed: Option<Code>) {

    /** The session is revalidated, and found good. */
    predicate Revalidates(wake: Wake) {
      wake.utc < expiresAt && wake.check.Accepted?
    }

    /** What follows once a deadline is reached: a new one is set before the session is checked. */
    function Revalidated(wake: Wake): Socket
      requires wake.Valid()
    {
      var next := this.(deadline := NextDeadline(wake.setAt, wake.random));
      if wake.utc >= expiresAt then
        next.(closed := Some(AuthRequired))
      else
        match wake.check
        case Refused => next.(closed := Some(AuthRequired))
        case Accepted(until) => next.(expiresAt := until)
        case Failed => next.(closed := Some(InternalError))
    }

    /** One turn of the loop of `ws_status`. */
    function StatusTurn(wake: Wake): Socket
      requires wake.Valid()
    {
      if closed.Some? then
        this
      else if wake.frame == Disconnect then
        this.(closed := Some(Normal))
      else if wake.frame == Data && wake.now < deadline then
        this
      else
        Revalidated(wake)
    }

    /** One turn of the loop of `ws_logs`. */
    function LogTurn(wake: Wake): Socket
      requires wake.Valid()
    {
      if closed.Some? then
        this
      else
        var checked := if wake.now >= deadline then Revalidated(wake) else this;
        if checked.closed == Some(InternalError) then
          checked.(sent := sent + [StreamFailed])
        else if checked.closed.Some? then
          checked
        else if wake.frame == Disconnect then
          checked.(closed := Some(Normal))
        else
          match wake.read
          case Waiting => checked
          case Chunk(text) => checked.(sent := sent + [Log(text)])
          case Eof => checked.(sent := sent + [StreamEnded], closed := Some(Normal))
          case Broken => checked.(sent := sent + [StreamFailed], closed := Some(InternalError))
    }
  }

  predicate AllValid(wakes: seq<Wake>) {
    forall i :: 0 <= i < |wakes| ==> wakes[i].Valid()
  }

  function StatusRun(socket: Socket, wakes: seq<Wake>): Socket
    requires AllValid(wakes)
  {
    if wakes == [] then socket else StatusRun(socket, wakes[..|wakes| - 1]).StatusTurn(wakes[|wakes| - 1])
  }

  function LogRun(socket: Socket, wakes: seq<Wake>): Socket
    requires AllValid(wakes)
  {
    if wakes == [] then socket else LogRun(socket, wakes[..|wakes| - 1]).LogTurn(wakes[|wakes| - 1])
  }

  /** The loop of `ws_status`, with its variables updated step by step. */
  method StatusLoop(socket: Socket, wakes: seq<Wake>) returns (closeCode: Option<Code>, deadline: real, expiresAt: real)
    requires AllValid(wakes) && socket.closed.None?
    ensures Socket(deadline, expiresAt, socket.sent, closeCode) == StatusRun(socket, wakes)
  {
    closeCode, deadline, expiresAt := None, socket.deadline, socket.expiresAt;
    var i := 0;
    while i < |wakes| && closeCode.None?
      invariant i <= |wakes|
      invariant Socket(deadline, expiresAt, socket.sent, closeCode) == StatusRun(socket, wakes[..i])
    {
      var wake := wakes[i];
      assert wakes[..i + 1][..i] == wakes[..i];
      i := i + 1;
      if wake.frame == Disconnect {
        closeCode := Some(Normal);
        break;
      }
      if wake.frame == Data && wake.now < deadline {
        continue;
      }
      deadline := NextDeadline(wake.setAt, wake.random);
      if wake.utc >= expiresAt {
        closeCode := Some(AuthRequired);
        break;
      }
      match wake.check {
        case Refused => closeCode := Some(AuthRequired);
        case Accepted(until) => expiresAt := until;
        case Failed => closeCode := Some(InternalError);
      }
    }
    if closeCode.Some? {
      ClosedStatusStaysClosed(socket, wakes, i);
    }
    assert wakes[..|wakes|] == wakes;
  }

  /** The loop of `ws_logs`: the session is revalidated before anything is sent. */
  method LogLoop(socket: Socket, wakes: seq<Wake>)
    returns (closeCode: Option<Code>, deadline: real, expiresAt: real, sent: seq<Message>)
    requires AllValid(wakes) && socket.closed.None?
    ensures Socket(deadline, expiresAt, sent, closeCode) == LogRun(socket, wakes)
  {
    closeCode, deadline, expiresAt, sent := None, socket.deadline, socket.expiresAt, socket.sent;
    var i := 0;
    while i < |wakes| && closeCode.None?
      invariant i <= |wakes|
      invariant Socket(deadline, expiresAt, sent, closeCode) == LogRun(socket, wakes[..i])
    {
      var wake := wakes[i];
      assert wakes[..i + 1][..i] == wakes[..i];
      i := i + 1;
      if wake.now >= deadline {
        deadline := NextDeadline(wake.setAt, wake.random);
        if wake.utc >= expiresAt || wake.check == Refused {
          closeCode := Some(AuthRequired);
          break;
        }
        if wake.check == Failed {
          closeCode := Some(InternalError);
          sent := sent + [StreamFailed];
          break;
        }
        expiresAt := wake.check.expiresAt;
      }
      if wake.frame == Disconnect {
        closeCode := Some(Normal);
        break;
      }
      match wake.read {
        case Waiting =>
        case Chunk(text) => sent := sent + [Log(text)];
        case Eof => sent, closeCode := sent + [StreamEnded], Some(Normal);
        case Broken => sent, closeCode := sent + [StreamFailed], Some(InternalError);
      }
    }
    if closeCode.Some? {
      ClosedLogStaysClosed(socket, wakes, i);
    }
    assert wakes[..|wakes|] == wakes;
  }

  lemma {:induction false} ClosedStatusStaysClosed(socket: Socket, wakes: seq<Wake>, i: nat)
    requires AllValid(wakes) && i <= |wakes| && StatusRun(socket, wakes[..i]).closed.Some?
    ensures StatusRun(socket, wakes) == StatusRun(socket, wakes[..i])
  {
    if i == |wakes| {
      assert wakes[..i] == wakes;
    } else {
      assert wakes[..|wakes| - 1][..i] == wakes[..i];
      ClosedStatusStaysClosed(socket, wakes[..|wakes| - 1], i);
    }
  }

  lemma {:induction false} ClosedLogStaysClosed(socket: Socket, wakes: seq<Wake>, i: nat)
    requires AllValid(wakes) && i <= |wakes| && LogRun(socket, wakes[..i]).closed.Some?
    ensures LogRun(socket, wakes) == LogRun(socket, wakes[..i])
  {
    if i == |wakes| {
      assert wakes[..i] == wakes;
    } else {
      assert wakes[..|wakes| - 1][..i] == wakes[..i];
      ClosedLogStaysClosed(socket, wakes[..|wakes| - 1], i);
    }
  }

  /** When the latest revalidation that found the session good set its deadline, if there was one. */
  function StatusRevalidatedAt(socket: Socket, wakes: seq<Wake>): Option<real>
    requires AllValid(wakes)
  {
    if wakes == [] then
      None
    else
      var wake, before := wakes[|wakes| - 1], StatusRun(socket, wakes[..|wakes| - 1]);
      var due := wake.frame == Quiet || (wake.frame == Data && wake.now >= before.deadline);
      if before.closed.None? && due && before.Revalidates(wake) then
        Some(wake.setAt)
      else
        StatusRevalidatedAt(socket, wakes[..|wakes| - 1])
  }

  function LogRevalidatedAt(socket: Socket, wakes: seq<Wake>): Option<real>
    requires AllValid(wakes)
  {
    if wakes == [] then
      None
    else
      var wake, before := wakes[|wakes| - 1], LogRun(socket, wakes[..|wakes| - 1]);
      if before.closed.None? && wake.now >= before.deadline && before.Revalidates(wake) then
        Some(wake.setAt)
      else
        LogRevalidatedAt(socket, wakes[..|wakes| - 1])
  }

  /** A session found good at the handshake is due again only counting from when the loop began. */
  function Delay(handshake: real, began: real, revalidatedAt: Option<real>): real {
    if revalidatedAt.None? then began - handshake else 0.0
  }

  /** What is known of an open socket's session at the latest wake. */
  predicate IsFresh(handshake: real, began: real, revalidatedAt: Option<real>, socket: Socket, wakes: seq<Wake>) {
    var due := revalidatedAt.GetOr(handshake) + Delay(handshake, began, revalidatedAt);
    && due + INTERVAL <= socket.deadline < due + LONGEST
    && (wakes != [] ==> wakes[|wakes| - 1].now < due + LONGEST)
  }

  /**
   * However many frames a client sends: while a status socket is open, its session was found good less than 72 seconds
   * before the latest wake. Until the first revalidation that was at the handshake, and the time from there to the
   * start of the loop is added.
   */
  lemma {:induction false} StatusIsNeverStale(handshake: real, began: real, socket: Socket, wakes: seq<Wake>)
    requires AllValid(wakes) && socket.closed.None? && handshake <= began
    requires began + INTERVAL <= socket.deadline < began + LONGEST
    requires StatusRun(socket, wakes).closed.None?
    ensures IsFresh(handshake, began, StatusRevalidatedAt(socket, wakes), StatusRun(socket, wakes), wakes)
  {
    if wakes != [] {
      StatusIsNeverStale(handshake, began, socket, wakes[..|wakes| - 1]);
    }
  }

  /** The same for a log socket. */
  lemma {:induction false} LogIsNeverStale(handshake: real, began: real, socket: Socket, wakes: seq<Wake>)
    requires AllValid(wakes) && socket.closed.None? && handshake <= began
    requires began + INTERVAL <= socket.deadline < began + LONGEST
    requires LogRun(socket, wakes).closed.None?
    ensures IsFresh(handshake, began, LogRevalidatedAt(socket, wakes), LogRun(socket, wakes), wakes)
  {
    if wakes != [] {
      LogIsNeverStale(handshake, began, socket, wakes[..|wakes| - 1]);
    }
  }

  /**
   * A chunk is sent only in a turn before the deadline, or after a revalidation in that turn that found the session
   * good.
   */
  lemma ChunksNeedAGoodSession(socket: Socket, wake: Wake, text: string)
    requires wake.Valid() && socket.closed.None? && socket.LogTurn(wake).sent == socket.sent + [Log(text)]
    ensures wake.read == Chunk(text)
    ensures wake.now < socket.deadline || socket.Revalidates(wake)
    ensures socket.LogTurn(wake).closed.None?
  {
    var sent := socket.LogTurn(wake).sent;
    assert sent[|sent| - 1] == Log(text);
  }

  /** The chunks read in these turns. */
  function ChunksRead(wakes: seq<Wake>): seq<Message> {
    if wakes == [] then
      []
    else
      var wake := wakes[|wakes| - 1];
      ChunksRead(wakes[..|wakes| - 1]) + match wake.read case Chunk(text) => [Log(text)] case _ => []
  }

  /** While a log socket is open, every chunk read has been sent, once and in order. */
  lemma {:induction false} EveryChunkIsSentOnce(socket: Socket, wakes: seq<Wake>)
    requires AllValid(wakes) && LogRun(socket, wakes).closed.None?
    ensures LogRun(socket, wakes).sent == socket.sent + ChunksRead(wakes)
  {
    if wakes == [] {
      assert socket.sent + [] == socket.sent;
    } else {
      var earlier := wakes[..|wakes| - 1];
      EveryChunkIsSentOnce(socket, earlier);
    }
  }

  /** Two series of wakes that differ only in the frames a client sent. */
  predicate DifferInFramesOnly(one: seq<Wake>, other: seq<Wake>) {
    && |one| == |other|
    && forall i :: 0 <= i < |one| ==>
         other[i] == one[i].(frame := other[i].frame) && (one[i].frame == Disconnect <==> other[i].frame == Disconnect)
  }

  /** The frames a client sends to a log socket make no difference at all. */
  lemma {:induction false} LogFramesDoNotMatter(socket: Socket, one: seq<Wake>, other: seq<Wake>)
    requires AllValid(one) && AllValid(other) && DifferInFramesOnly(one, other)
    ensures LogRun(socket, one) == LogRun(socket, other)
  {
    if one != [] {
      var last := |one| - 1;
      assert DifferInFramesOnly(one[..last], other[..last]);
      LogFramesDoNotMatter(socket, one[..last], other[..last]);
      assert other[last] == one[last].(frame := other[last].frame);
    }
  }

  /** A frame sent to a status socket before the deadline changes nothing, and one after it is like silence. */
  lemma StatusFramesDoNotPostpone(socket: Socket, wake: Wake)
    requires wake.Valid() && wake.frame == Data
    ensures wake.now < socket.deadline ==> socket.StatusTurn(wake) == socket
    ensures wake.now >= socket.deadline ==> socket.StatusTurn(wake) == socket.StatusTurn(wake.(frame := Quiet))
  {}

  /** Dropping all the frames sent in time leaves a status socket as it is. */
  lemma {:induction false} StatusIgnoresTimelyFrames(socket: Socket, wakes: seq<Wake>, frame: Wake, later: seq<Wake>)
    requires AllValid(wakes) && frame.Valid() && AllValid(later)
    requires frame.frame == Data && frame.now < StatusRun(socket, wakes).deadline
    ensures StatusRun(socket, wakes + [frame] + later) == StatusRun(socket, wakes + later)
  {
    var longer, shorter := wakes + [frame] + later, wakes + later;
    if later == [] {
      assert longer[..|longer| - 1] == wakes && shorter == wakes;
    } else {
      var earlier := later[..|later| - 1];
      assert longer[..|longer| - 1] == wakes + [frame] + earlier;
      assert shorter[..|shorter| - 1] == wakes + earlier;
      StatusIgnoresTimelyFrames(socket, wakes, frame, earlier);
    }
  }
}
