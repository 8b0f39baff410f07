/** The Core side: replaying chunks into the downstream response, whatever that writer does. */
module StreamClient {
  import opened Bytes
  import opened Outcomes
  import opened StreamChunks

  /** A downstream writer; its n-th Write drops the last `drops(n)` bytes and may report an error. */
  class Downstream {
    const drops: nat -> nat
    const errs: nat -> bool
    var headers: Headers
    var status: int
    var commits: nat
    var body: seq<byte>
    var writes: nat

    constructor (drops: nat -> nat, errs: nat -> bool)
      ensures commits == 0 && body == [] && headers == map[] && writes == 0
      ensures this.drops == drops && this.errs == errs
    {
      this.drops, this.errs := drops, errs;
      headers, status, commits, body, writes := map[], 0, 0, [], 0;
    }

    method AddHeaders(more: Headers)
      modifies this`headers
      ensures headers == AddAll(old(headers), more)
    {
      headers := AddAll(headers, more);
    }

    method WriteHeader(code: int)
      modifies this`status, this`commits
      ensures status == code && commits == old(commits) + 1
    {
      status, commits := code, commits + 1;
    }

    method Write(data: seq<byte>) returns (n: nat, ok: bool)
      modifies this`body, this`writes
      ensures n <= |data| && body == old(body) + data[..n] && writes == old(writes) + 1
      ensures ok == !errs(old(writes)) && (n == |data| <==> drops(old(writes)) == 0 || data == [])
    {
      n := |data| - Min(drops(writes), |data|);
      ok := !errs(writes);
      body, writes := body + data[..n], writes + 1;
    }
  }

  datatype ClientError = RecvFailed | WriteFailed | NoFinalOutcome

  /** How a reception without a final chunk ends. */
  function EndOf(broken: bool): ClientError {
    if broken then RecvFailed else NoFinalOutcome
  }

  predicate HasFinal(c: Chunk) {
    c.done && c.final.Some?
  }

  /** A chunk that makes the client commit the response, if nothing has before. */
  predicate Starts(c: Chunk) {
    c.status != 0 || |c.headers| > 0 || |c.data| > 0
  }

  /** The first chunk that satisfies one or the other, or the length. */
  function FirstFinal(chunks: seq<Chunk>): (k: nat)
    ensures k <= |chunks| && (k < |chunks| ==> HasFinal(chunks[k]))
  {
    if chunks == [] || HasFinal(chunks[0]) then 0 else 1 + FirstFinal(chunks[1..])
  }

  function FirstStart(chunks: seq<Chunk>): (k: nat)
    ensures k <= |chunks| && (k < |chunks| ==> Starts(chunks[k]))
  {
    if chunks == [] || Starts(chunks[0]) then 0 else 1 + FirstStart(chunks[1..])
  }

  lemma {:induction false} FirstFinalAt(chunks: seq<Chunk>, i: nat)
    requires i < |chunks|
    ensures i < FirstFinal(chunks) ==> !(chunks[i].done && chunks[i].final.Some?)
    ensures i == FirstFinal(chunks) ==> chunks[i].done && chunks[i].final.Some?
    decreases i
  {
    if i > 0 && !HasFinal(chunks[0]) {
      FirstFinalAt(chunks[1..], i - 1);
    }
  }

  lemma {:induction false} FirstStartAt(chunks: seq<Chunk>, i: nat)
    requires i < |chunks|
    ensures i < FirstStart(chunks) ==> chunks[i].status == 0 && |chunks[i].headers| == 0 && chunks[i].data == []
    ensures i == FirstStart(chunks) ==> chunks[i].status != 0 || |chunks[i].headers| > 0 || chunks[i].data != []
    decreases i
  {
    if i > 0 && !Starts(chunks[0]) {
      FirstStartAt(chunks[1..], i - 1);
    }
  }

  function ChunkStatus(c: Chunk): int {
    if c.status == 0 then STATUS_OK else c.status
  }

  /** Usage stays billable when only the delivery of the last bytes failed; nothing may be retried. */
  function Aborted(o: Outcome): Outcome {
    o.(kind := STREAM_ABORTED, scope := Terminal, reason := "failed to write the response")
  }

  /** The response has been committed by the first starting chunk so far, and only by it. */
  ghost predicate CommittedAs(commits: nat, status: int, headers: Headers, chunks: seq<Chunk>, seen: nat)
    requires seen <= |chunks|
  {
    var s := FirstStart(chunks);
    && (s < seen ==> commits == 1 && headers == Lines(chunks[s].headers))
    && (s < seen ==> status == if chunks[s].status == 0 then 200 else chunks[s].status)
    && (s >= seen ==> commits == 0 && headers == map[])
  }

  ghost predicate CommittedBy(w: Downstream, chunks: seq<Chunk>, seen: nat)
    requires seen <= |chunks|
    reads w
  {
    CommittedAs(w.commits, w.status, w.headers, chunks, seen)
  }

  /** Commit the response if this chunk is the first to start it. */
  method Start(w: Downstream, ghost chunks: seq<Chunk>, ghost i: nat, chunk: Chunk, started: bool) returns (now: bool)
    requires i < |chunks| && chunk == chunks[i] && CommittedBy(w, chunks, i)
    requires started == (FirstStart(chunks) < i)
    modifies w`headers, w`status, w`commits
    ensures CommittedBy(w, chunks, i + 1) && now == (FirstStart(chunks) < i + 1)
  {
    FirstStartAt(chunks, i);
    now := started;
    if !started && Starts(chunk) {
      AddToNone(chunk.headers);
      w.AddHeaders(chunk.headers);
      w.WriteHeader(ChunkStatus(chunk));
      now := true;
    }
  }

  /** How many of the chunks carry data. */
  function WithData(chunks: seq<Chunk>): nat {
    if chunks == [] then 0
    else WithData(chunks[..|chunks| - 1]) + if chunks[|chunks| - 1].data == [] then 0 else 1
  }

  /** Replay one chunk: commit the response if this chunk is the first to start it, then write its data. */
  method Replay(w: Downstream, ghost chunks: seq<Chunk>, ghost i: nat, chunk: Chunk, started: bool)
    returns (now: bool, ok: bool)
    requires i < |chunks| && chunk == chunks[i] && CommittedBy(w, chunks, i)
    requires started == (FirstStart(chunks) < i)
    modifies w
    ensures CommittedBy(w, chunks, i + 1) && now == (FirstStart(chunks) < i + 1)
    ensures ok ==> w.body == old(w.body) + chunk.data
    ensures w.writes == old(w.writes) + if chunk.data == [] then 0 else 1
    ensures !ok ==> old(w.body) <= w.body <= old(w.body) + chunk.data
    ensures !ok ==> w.writes > 0 && (w.errs(w.writes - 1) || w.drops(w.writes - 1) > 0)
  {
    now := Start(w, chunks, i, chunk, started);
    ok := true;
    if |chunk.data| > 0 {
      var n, taken := w.Write(chunk.data);
      assert chunk.data == chunk.data[..n] + chunk.data[n..];
      ok := taken && n == |chunk.data|;
    }
  }

  /** What is returned beside an error: the decoded verdict, marked aborted, when the chunk whose
      delivery failed was the final one, and nothing otherwise. */
  function FailedOutcome(chunks: seq<Chunk>, at: nat, e: ClientError): (o: Outcome)
    requires at <= |chunks|
    ensures !ShouldFailover(o)
  {
    if e == WriteFailed && at < |chunks| && HasFinal(chunks[at]) then Aborted(FromWire(chunks[at].final.value))
    else ZERO_OUTCOME
  }

  /** The outcome beside an error. If the bytes that could not be written came with the verdict, that may
      not pass for a success or be retried, but all else it says, what the call cost in particular, stays;
      otherwise nothing is known and nothing is billed. */
  ghost predicate ErrorOutcome(chunks: seq<Chunk>, at: nat, e: ClientError, o: Outcome) {
    if e == WriteFailed && at < |chunks| && chunks[at].done && chunks[at].final.Some? then
      o == FromWire(chunks[at].final.value).(kind := STREAM_ABORTED, scope := Terminal,
                                             reason := "failed to write the response")
    else o == Outcome(UNKNOWN, NoScope, None, "", 0, 0, 0, [], None)
  }

  lemma FailedOutcomeIs(chunks: seq<Chunk>, at: nat, e: ClientError)
    requires at <= |chunks|
    ensures ErrorOutcome(chunks, at, e, FailedOutcome(chunks, at, e))
    ensures forall o :: ErrorOutcome(chunks, at, e, o) ==> o == FailedOutcome(chunks, at, e)
  {
  }

  /** The data of the first `n` chunks, and how many of them have some. */
  ghost function DataOfFirst(chunks: seq<Chunk>, n: nat): seq<byte>
    requires n <= |chunks|
  {
    if n == 0 then [] else DataOfFirst(chunks, n - 1) + chunks[n - 1].data
  }

  ghost function WritesOfFirst(chunks: seq<Chunk>, n: nat): nat
    requires n <= |chunks|
  {
    if n == 0 then 0 else WritesOfFirst(chunks, n - 1) + if chunks[n - 1].data == [] then 0 else 1
  }

  lemma {:induction false} FirstAre(chunks: seq<Chunk>, n: nat)
    requires n <= |chunks|
    ensures DataOfFirst(chunks, n) == Data(chunks[..n]) && WritesOfFirst(chunks, n) == WithData(chunks[..n])
    decreases n
  {
    if n > 0 {
      assert chunks[..n][..n - 1] == chunks[..n - 1];
      FirstAre(chunks, n - 1);
    }
  }

  /**
   * What a reception of these chunks came to: `at` is the number of chunks that were delivered completely,
   * `body` what the writer took, in `writes` calls. It succeeds with the verdict of the first final chunk,
   * fails where a write failed, or ends with the stream.
   */
  ghost predicate Reception(chunks: seq<Chunk>, broken: bool, outcome: Outcome, err: Option<ClientError>, at: nat,
                            body: seq<byte>, writes: nat)
  {
    && at <= |chunks| && (WriteFailure(err) ==> at < |chunks|)
    && writes == WithData(chunks[..if WriteFailure(err) then at + 1 else at])
    && (if WriteFailure(err) then Data(chunks[..at]) <= body <= Data(chunks[..at + 1]) else body == Data(chunks[..at]))
    && (err.None? ==>
          && at == FirstFinal(chunks) + 1 && chunks[at - 1].done && chunks[at - 1].final.Some?
          && outcome == FromWire(chunks[at - 1].final.value))
    && (err.Some? ==>
          && at <= FirstFinal(chunks)
          && ErrorOutcome(chunks, at, err.value, outcome)
          && (err.value != WriteFailed ==>
                at == |chunks| && err.value == if broken then RecvFailed else NoFinalOutcome))
  }

  lemma {:induction false} EndsWithVerdict(chunks: seq<Chunk>, broken: bool, i: nat, outcome: Outcome, body: seq<byte>,
                                           writes: nat)
    requires i < |chunks| && i <= FirstFinal(chunks) && HasFinal(chunks[i])
    requires outcome == FromWire(chunks[i].final.value)
    requires body == DataOfFirst(chunks, i + 1) && writes == WritesOfFirst(chunks, i + 1)
    ensures Reception(chunks, broken, outcome, None, i + 1, body, writes)
  {
    FirstAre(chunks, i + 1);
    FirstFinalAt(chunks, i);
  }

  lemma EndsUnwritten(chunks: seq<Chunk>, broken: bool, i: nat, outcome: Outcome, body: seq<byte>, writes: nat)
    requires i < |chunks| && i <= FirstFinal(chunks)
    requires outcome == if HasFinal(chunks[i]) then Aborted(FromWire(chunks[i].final.value)) else ZERO_OUTCOME
    requires DataOfFirst(chunks, i) <= body <= DataOfFirst(chunks, i + 1) && writes == WritesOfFirst(chunks, i + 1)
    ensures Reception(chunks, broken, outcome, Some(WriteFailed), i, body, writes)
  {
    FirstAre(chunks, i);
    FirstAre(chunks, i + 1);
    FailedOutcomeIs(chunks, i, WriteFailed);
  }

  lemma {:induction false} EndsWithStream(chunks: seq<Chunk>, broken: bool, body: seq<byte>, writes: nat)
    requires FirstFinal(chunks) == |chunks|
    requires body == DataOfFirst(chunks, |chunks|) && writes == WritesOfFirst(chunks, |chunks|)
    ensures Reception(chunks, broken, ZERO_OUTCOME, Some(EndOf(broken)), |chunks|, body, writes)
  {
    FirstAre(chunks, |chunks|);
    FailedOutcomeIs(chunks, |chunks|, EndOf(broken));
  }

  /** The first `i` chunks have been replayed, and none of them was final. */
  ghost predicate Replayed(w: Downstream, chunks: seq<Chunk>, i: nat)
    requires i <= |chunks|
    reads w
  {
    && i <= FirstFinal(chunks)
    && w.body == DataOfFirst(chunks, i) && w.writes == WritesOfFirst(chunks, i)
    && CommittedBy(w, chunks, i)
  }

  /** How a round of the loop ends the reception. */
  datatype End = End(outcome: Outcome, err: Option<ClientError>)

  /** One round of the loop. */
  method Round(w: Downstream, chunks: seq<Chunk>, i: nat, broken: bool, started: bool)
    returns (now: bool, end: Option<End>, ghost at: nat)
    requires i < |chunks| && Replayed(w, chunks, i) && started == (FirstStart(chunks) < i)
    modifies w
    ensures end.None? ==> Replayed(w, chunks, i + 1) && now == (FirstStart(chunks) < i + 1)
    ensures end.Some? ==> Reception(chunks, broken, end.value.outcome, end.value.err, at, w.body, w.writes)
    ensures end.Some? ==> CommittedBy(w, chunks, if WriteFailure(end.value.err) then at + 1 else at)
    ensures end.Some? && WriteFailure(end.value.err) ==>
              w.writes > 0 && (w.errs(w.writes - 1) || w.drops(w.writes - 1) > 0)
  {
    var chunk := chunks[i];
    // Decoded before any of its bytes are written downstream.
    var final := if HasFinal(chunk) then FromWire(chunk.final.value) else ZERO_OUTCOME;
    var ok;
    now, ok := Replay(w, chunks, i, chunk, started);
    if !ok {
      var outcome := if HasFinal(chunk) then Aborted(final) else ZERO_OUTCOME;
      EndsUnwritten(chunks, broken, i, outcome, w.body, w.writes);
      return now, Some(End(outcome, Some(WriteFailed))), i;
    }
    if HasFinal(chunk) {
      EndsWithVerdict(chunks, broken, i, final, w.body, w.writes);
      return now, Some(End(final, None)), i + 1;
    }
    FirstFinalAt(chunks, i);
    return now, None, i;
  }

  /** Chunks are received in order until the first final one, or until the stream ends. */
  method ForwardStream(chunks: seq<Chunk>, broken: bool, w: Downstream)
    returns (outcome: Outcome, err: Option<ClientError>, ghost at: nat)
    requires w.body == [] && w.commits == 0 && w.headers == map[] && w.writes == 0
    modifies w
    ensures Reception(chunks, broken, outcome, err, at, w.body, w.writes)
    ensures CommittedBy(w, chunks, if WriteFailure(err) then at + 1 else at)
    ensures WriteFailure(err) ==> w.writes > 0 && (w.errs(w.writes - 1) || w.drops(w.writes - 1) > 0)
  {
    var responseStarted := false;
    var i := 0;
    while i < |chunks|
      invariant i <= |chunks| && Replayed(w, chunks, i)
      invariant responseStarted == (FirstStart(chunks) < i)
    {
      var end;
      responseStarted, end, at := Round(w, chunks, i, broken, responseStarted);
      if end.Some? {
        return end.value.outcome, end.value.err, at;
      }
      i := i + 1;
    }
    EndsWithStream(chunks, broken, w.body, w.writes);
    return ZERO_OUTCOME, Some(EndOf(broken)), |chunks|;
  }

  predicate WriteFailure(err: Option<ClientError>) {
    err.Some? && err.value == WriteFailed
  }
}
