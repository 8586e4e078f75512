/** What is kept of a child process's output: the end of one stream, the beginning of another, whatever the chunking. */
module StreamCapture {
  import opened Common

  const NEWLINE: Byte := 10
  const OUTPUT_TAIL_LIMIT := 256 * 1024

  /** Everything a pipe delivered, in order. A read that delivers nothing is the end, so no chunk is empty. */
  function Stream(chunks: seq<seq<Byte>>): seq<Byte> {
    if chunks == [] then [] else Stream(chunks[..|chunks| - 1]) + chunks[|chunks| - 1]
  }

  function Last(bytes: seq<Byte>, limit: nat): seq<Byte> {
    if |bytes| <= limit then bytes else bytes[|bytes| - limit..]
  }

  function First(bytes: seq<Byte>, limit: nat): seq<Byte> {
    if |bytes| <= limit then bytes else bytes[..limit]
  }

  lemma LastOfLast(bytes: seq<Byte>, more: seq<Byte>, limit: nat)
    ensures Last(Last(bytes, limit) + more, limit) == Last(bytes + more, limit)
    ensures |Last(bytes, limit) + more| > limit || |bytes| > limit <==> |bytes + more| > limit
  {}

  class Buffer {
    var bytes: seq<Byte>

    constructor ()
      ensures bytes == []
    {
      bytes := [];
    }

    method Extend(chunk: seq<Byte>)
      modifies this
      ensures bytes == old(bytes) + chunk
    {
      bytes := bytes + chunk;
    }

    /** `_tail_ring`: keeps the last bytes only; whether it had to drop some. */
    method TailRing(chunk: seq<Byte>, limit: nat) returns (dropped: bool)
      modifies this
      ensures bytes == Last(old(bytes) + chunk, limit)
      ensures dropped <==> |old(bytes) + chunk| > limit
    {
      Extend(chunk);
      var overflow := |bytes| - limit;
      if overflow > 0 {
        bytes := bytes[overflow..];
        return true;
      }
      return false;
    }
  }

  /** What follows the first newline. */
  function AfterNewline(bytes: seq<Byte>): seq<Byte> {
    if bytes == [] then [] else if bytes[0] == NEWLINE then bytes[1..] else AfterNewline(bytes[1..])
  }

  /** `_clipped_tail`: a cut tail loses its first, partial line. */
  function ClippedTail(bytes: seq<Byte>, dropped: bool, notice: seq<Byte>): seq<Byte> {
    if !dropped then
      bytes
    else if AfterNewline(bytes) != [] then
      AfterNewline(bytes)
    else
      notice
  }

  /** Bytes that follow the first newline start right behind it. */
  lemma {:induction false} AfterNewlineIsASuffix(bytes: seq<Byte>) returns (start: nat)
    ensures start <= |bytes| && AfterNewline(bytes) == bytes[start..]
    ensures AfterNewline(bytes) != [] ==> start > 0 && bytes[start - 1] == NEWLINE && NEWLINE !in bytes[..start - 1]
    ensures AfterNewline(bytes) == [] ==> forall i :: 0 <= i < |bytes| - 1 ==> bytes[i] != NEWLINE
  {
    if bytes == [] {
      start := 0;
    } else if bytes[0] == NEWLINE {
      start := 1;
    } else {
      start := AfterNewlineIsASuffix(bytes[1..]);
      start := start + 1;
      if AfterNewline(bytes) != [] {
        assert bytes[..start - 1] == [bytes[0]] + bytes[1..][..start - 2];
      }
    }
  }

  /** Drains a stream whose end is kept. */
  method DrainTail(chunks: seq<seq<Byte>>, limit: nat) returns (buffer: Buffer, dropped: bool)
    requires forall chunk :: chunk in chunks ==> chunk != []
    ensures fresh(buffer)
    ensures buffer.bytes == Last(Stream(chunks), limit)
    ensures dropped <==> |Stream(chunks)| > limit
  {
    buffer := new Buffer();
    dropped := false;
    for i := 0 to |chunks|
      invariant fresh(buffer)
      invariant buffer.bytes == Last(Stream(chunks[..i]), limit)
      invariant dropped <==> |Stream(chunks[..i])| > limit
    {
      LastOfLast(Stream(chunks[..i]), chunks[i], limit);
      assert chunks[..i + 1][..i] == chunks[..i];
      var now := buffer.TailRing(chunks[i], limit);
      dropped := dropped || now;
    }
    assert chunks[..|chunks|] == chunks;
  }

  /** Drains a stream whose beginning is kept; without a limit, all of it. */
  method DrainHead(chunks: seq<seq<Byte>>, limit: Option<nat>) returns (buffer: Buffer, truncated: bool)
    requires forall chunk :: chunk in chunks ==> chunk != []
    ensures fresh(buffer)
    ensures buffer.bytes == if limit.Some? then First(Stream(chunks), limit.value) else Stream(chunks)
    ensures truncated <==> limit.Some? && |Stream(chunks)| > limit.value
  {
    buffer := new Buffer();
    truncated := false;
    for i := 0 to |chunks|
      invariant fresh(buffer)
      invariant buffer.bytes == if limit.Some? then First(Stream(chunks[..i]), limit.value) else Stream(chunks[..i])
      invariant truncated <==> limit.Some? && |Stream(chunks[..i])| > limit.value
    {
      var chunk := chunks[i];
      assert chunk in chunks;
      assert chunks[..i + 1][..i] == chunks[..i];
      if limit.None? {
        buffer.Extend(chunk);
      } else {
        ghost var seen := Stream(chunks[..i]);
        assert Stream(chunks[..i + 1]) == seen + chunk;
        var remaining := limit.value - |buffer.bytes|;
        if remaining > 0 {
          buffer.Extend(First(chunk, remaining));
        }
        if |chunk| > remaining {
          truncated := true;
        }
      }
    }
    assert chunks[..|chunks|] == chunks;
  }

  /** What is reported of a child process. */
  datatype Captured = Captured(stdout: seq<Byte>, stderr: seq<Byte>, truncated: bool)

  /** The whole stream, or all of its last bytes that follow a newline among them, or the notice if there are none. */
  ghost predicate IsReadableTail(text: seq<Byte>, stream: seq<Byte>, notice: seq<Byte>) {
    if |stream| <= OUTPUT_TAIL_LIMIT then
      text == stream
    else
      || (exists start ::
            && |stream| - OUTPUT_TAIL_LIMIT < start < |stream|
            && text == stream[start..] && StartsALine(stream, start)
            && forall i :: |stream| - OUTPUT_TAIL_LIMIT <= i < start - 1 ==> stream[i] != NEWLINE)
      || (text == notice && forall i :: |stream| - OUTPUT_TAIL_LIMIT <= i < |stream| - 1 ==> stream[i] != NEWLINE)
  }

  predicate StartsALine(stream: seq<Byte>, start: nat) {
    0 < start <= |stream| && stream[start - 1] == NEWLINE
  }

  lemma ClippedTailIsReadable(stream: seq<Byte>, notice: seq<Byte>)
    ensures IsReadableTail(ClippedTail(Last(stream, OUTPUT_TAIL_LIMIT), |stream| > OUTPUT_TAIL_LIMIT, notice), stream,
                           notice)
  {
    if |stream| > OUTPUT_TAIL_LIMIT {
      var skipped := |stream| - OUTPUT_TAIL_LIMIT;
      var ring := stream[skipped..];
      var start := AfterNewlineIsASuffix(ring);
      if AfterNewline(ring) != [] {
        assert ring[start..] == stream[skipped + start..];
        assert StartsALine(stream, skipped + start);
        forall i | skipped <= i < skipped + start - 1
          ensures stream[i] != NEWLINE
        {
          assert stream[i] == ring[..start - 1][i - skipped];
        }
      } else {
        forall i | skipped <= i < |stream| - 1
          ensures stream[i] != NEWLINE
        {
          assert stream[i] == ring[i - skipped];
        }
      }
    }
  }

  /** `_run_with_bounded_output`; the two streams are drained at the same time, and do not share anything. */
  method RunWithBoundedOutput(stdout: seq<seq<Byte>>, stderr: seq<seq<Byte>>, keepStdoutTail: bool,
                              stdoutLimit: Option<nat>, notice: seq<Byte>) returns (captured: Captured)
    requires forall chunk :: chunk in stdout || chunk in stderr ==> chunk != []
    ensures IsReadableTail(captured.stderr, Stream(stderr), notice)
    ensures keepStdoutTail ==> IsReadableTail(captured.stdout, Stream(stdout), notice) && !captured.truncated
    ensures !keepStdoutTail && stdoutLimit.None? ==> captured.stdout == Stream(stdout) && !captured.truncated
    ensures !keepStdoutTail && stdoutLimit.Some? ==>
              && captured.stdout == First(Stream(stdout), stdoutLimit.value)
              && captured.truncated == (|Stream(stdout)| > stdoutLimit.value)
  {
    var errors, errorsDropped := DrainTail(stderr, OUTPUT_TAIL_LIMIT);
    ClippedTailIsReadable(Stream(stderr), notice);
    ClippedTailIsReadable(Stream(stdout), notice);
    var clipped := ClippedTail(errors.bytes, errorsDropped, notice);
    if keepStdoutTail {
      var output, dropped := DrainTail(stdout, OUTPUT_TAIL_LIMIT);
      captured := Captured(ClippedTail(output.bytes, dropped, notice), clipped, false);
    } else {
      var output, truncated := DrainHead(stdout, stdoutLimit);
      captured := Captured(output.bytes, clipped, truncated);
    }
  }
}
