/**
 * The event observer's state machine, one byte at a time, and the two facts that make it a
 * specification: how the input is cut into writes never matters, and its buffers stay bounded.
 */
module SseAutomaton {
  import opened Bytes

  const DATA_PREFIX: seq<byte> := [100, 97, 116, 97, 58]  // "data:"
  const DONE_MARK: seq<byte> := [91, 68, 79, 78, 69, 93]  // "[DONE]"

  predicate Spells(bytes: seq<byte>, text: string) {
    |bytes| == |text| && forall i :: 0 <= i < |bytes| ==> bytes[i] == text[i] as int
  }

  lemma MarksAreSpelled()
    ensures Spells(DATA_PREFIX, "data:") && Spells(DONE_MARK, "[DONE]")
    ensures Spells([LF], "\n") && Spells([CR], "\r") && Spells([SPACE], " ")
  {
  }

  /** The observer's fields, with `events` the payloads handed over so far, oldest first. */
  datatype Obs = Obs(line: seq<byte>, data: seq<byte>, skipLine: bool, skipEvent: bool, skipLF: bool,
                     events: seq<seq<byte>>)

  const FRESH := Obs([], [], false, false, false, [])

  predicate IsTerminator(b: byte) {
    b == CR || b == LF
  }

  predicate IsDataLine(line: seq<byte>) {
    DATA_PREFIX <= line
  }

  /** What follows "data:", without one leading space. */
  function PayloadOf(line: seq<byte>): seq<byte>
    requires IsDataLine(line)
  {
    if |line| > 5 && line[5] == SPACE then line[6..] else line[5..]
  }

  function TrimLF(data: seq<byte>): seq<byte> {
    if data != [] && data[|data| - 1] == LF then data[..|data| - 1] else data
  }

  /** The collector's own guard: it keeps neither empty nor oversize payloads. */
  predicate Accepts(payload: seq<byte>, max: nat) {
    payload != [] && |payload| <= max
  }

  function Flush(s: Obs, max: nat): Obs {
    var payload := TrimLF(s.data);
    var observed := !s.skipEvent && payload != DONE_MARK && Accepts(payload, max);
    s.(data := [], skipEvent := false, events := if observed then s.events + [payload] else s.events)
  }

  function ConsumeLine(s: Obs, line: seq<byte>, max: nat): Obs {
    if line == [] then Flush(s, max)
    else if !IsDataLine(line) || s.skipEvent then s
    else if |s.data| + |PayloadOf(line)| + 1 > max then s.(data := [], skipEvent := true)
    else s.(data := s.data + PayloadOf(line) + [LF])
  }

  /** Appending terminator-free bytes to the current line, all at once. */
  function Append(s: Obs, chunk: seq<byte>, max: nat): Obs {
    if s.skipLine then s
    else if |s.line| + |chunk| > max then s.(line := [], skipLine := true, skipEvent := true)
    else s.(line := s.line + chunk)
  }

  function EndLine(s: Obs, terminator: byte, max: nat): Obs {
    var t := if s.skipLine then s else ConsumeLine(s, s.line, max);
    t.(line := [], skipLine := false, skipLF := terminator == CR)
  }

  function Step(s: Obs, b: byte, max: nat): Obs {
    if s.skipLF && b == LF then s.(skipLF := false)
    else if IsTerminator(b) then EndLine(s.(skipLF := false), b, max)
    else Append(s.(skipLF := false), [b], max)
  }

  function Feed(s: Obs, input: seq<byte>, max: nat): Obs
    decreases |input|
  {
    if input == [] then s else Feed(Step(s, input[0], max), input[1..], max)
  }

  function FeedAll(s: Obs, writes: seq<seq<byte>>, max: nat): Obs
    decreases |writes|
  {
    if writes == [] then s else FeedAll(Feed(s, writes[0], max), writes[1..], max)
  }

  function Finish(s: Obs, max: nat): Obs {
    var t := if !s.skipLine && s.line != [] then ConsumeLine(s, s.line, max) else s;
    Flush(t.(line := []), max)
  }

  ghost predicate Bounded(s: Obs, max: nat) {
    && |s.line| <= max
    && |s.data| <= max
    && (s.data == [] || s.data[|s.data| - 1] == LF)
    && (s.skipLine ==> s.line == [])
    && forall e :: e in s.events ==> e != [] && e != DONE_MARK && |e| < max && CR !in e
  }

  ghost predicate NoTerminator(chunk: seq<byte>) {
    forall i :: 0 <= i < |chunk| ==> !IsTerminator(chunk[i])
  }

  ghost predicate Clean(s: Obs) {
    CR !in s.line && CR !in s.data
  }

  lemma FlushKeepsBounds(s: Obs, max: nat)
    requires Bounded(s, max) && Clean(s)
    ensures Bounded(Flush(s, max), max) && Clean(Flush(s, max))
  {
    assert CR !in TrimLF(s.data);
  }

  lemma ConsumeKeepsBounds(s: Obs, max: nat)
    requires Bounded(s, max) && Clean(s)
    ensures Bounded(ConsumeLine(s, s.line, max), max) && Clean(ConsumeLine(s, s.line, max))
  {
    FlushKeepsBounds(s, max);
    if IsDataLine(s.line) {
      assert CR !in PayloadOf(s.line);
    }
  }

  lemma EndLineKeepsBounds(s: Obs, terminator: byte, max: nat)
    requires Bounded(s, max) && Clean(s)
    ensures Bounded(EndLine(s, terminator, max), max) && Clean(EndLine(s, terminator, max))
  {
    ConsumeKeepsBounds(s, max);
  }

  lemma StepKeepsBounds(s: Obs, b: byte, max: nat)
    requires Bounded(s, max) && Clean(s)
    ensures Bounded(Step(s, b, max), max) && Clean(Step(s, b, max))
  {
    EndLineKeepsBounds(s.(skipLF := false), b, max);
  }

  /** Whatever is fed in, no line or event buffer outgrows the bound, and every payload handed
      over is nonempty, is not the terminator mark, holds no CR and is strictly below the bound:
      the collector's size guard never rejects one for its size. */
  lemma {:induction false} FeedKeepsBounds(s: Obs, input: seq<byte>, max: nat)
    requires Bounded(s, max) && Clean(s)
    ensures Bounded(Feed(s, input, max), max) && Clean(Feed(s, input, max))
    decreases |input|
  {
    if input != [] {
      StepKeepsBounds(s, input[0], max);
      FeedKeepsBounds(Step(s, input[0], max), input[1..], max);
    }
  }

  lemma {:induction false} FeedConcat(s: Obs, a: seq<byte>, b: seq<byte>, max: nat)
    ensures Feed(s, a + b, max) == Feed(Feed(s, a, max), b, max)
    decreases |a|
  {
    if a == [] {
      assert a + b == b;
    } else {
      assert (a + b)[1..] == a[1..] + b;
      FeedConcat(Step(s, a[0], max), a[1..], b, max);
    }
  }

  /** Splitting invariance: any way of cutting the stream into writes gives the state, and so the
      events, of the same stream fed byte by byte. */
  lemma {:induction false} SplittingInvariance(s: Obs, writes: seq<seq<byte>>, max: nat)
    ensures FeedAll(s, writes, max) == Feed(s, Flatten(writes), max)
    decreases |writes|
  {
    if writes != [] {
      FeedConcat(s, writes[0], Flatten(writes[1..]), max);
      SplittingInvariance(Feed(s, writes[0], max), writes[1..], max);
    }
  }

  /** A terminator-free run of bytes may be appended in one go: an oversize line is noticed at a
      different byte, with the same outcome. */
  lemma {:induction false} FeedChunk(s: Obs, chunk: seq<byte>, max: nat)
    requires NoTerminator(chunk) && !s.skipLF && |s.line| <= max
    ensures Feed(s, chunk, max) == Append(s, chunk, max)
    decreases |chunk|
  {
    if chunk == [] {
      assert s.line + chunk == s.line;
    } else {
      var t := Step(s, chunk[0], max);
      assert [chunk[0]] + chunk[1..] == chunk;
      assert s.line + chunk == s.line + [chunk[0]] + chunk[1..];
      FeedChunk(t, chunk[1..], max);
    }
  }

  /** A swallowed or absent LF after CR: the flag only matters for the next byte. */
  lemma FeedAfterCR(s: Obs, input: seq<byte>, max: nat)
    requires s.skipLF && input != []
    ensures Feed(s, input, max) ==
            Feed(s.(skipLF := false), if input[0] == LF then input[1..] else input, max)
  {
  }

  /** One line and its terminator. */
  lemma {:induction false} FeedLine(s: Obs, input: seq<byte>, i: nat, max: nat)
    requires i < |input| && NoTerminator(input[..i]) && IsTerminator(input[i])
    requires !s.skipLF && |s.line| <= max
    ensures Feed(s, input, max) == Feed(EndLine(Append(s, input[..i], max), input[i], max), input[i + 1..], max)
  {
    assert input == input[..i] + input[i..];
    FeedConcat(s, input[..i], input[i..], max);
    FeedChunk(s, input[..i], max);
    assert input[i..][1..] == input[i + 1..];
  }
}
