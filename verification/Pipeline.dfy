/** Both halves together: plugin writes in, downstream response and verdict out. */
module Pipeline {
  import opened Bytes
  import opened Outcomes
  import opened StreamChunks
  import opened StreamWriter
  import opened StreamServer
  import opened StreamClient

  lemma {:induction false} DataPrefix(chunks: seq<Chunk>, k: nat)
    requires k <= |chunks|
    ensures Data(chunks[..k]) <= Data(chunks)
    decreases |chunks|
  {
    if k == |chunks| {
      assert chunks[..k] == chunks;
    } else {
      assert chunks[..|chunks| - 1][..k] == chunks[..k];
      DataPrefix(chunks[..|chunks| - 1], k);
    }
  }

  lemma {:induction false} DataEmpty(chunks: seq<Chunk>)
    ensures Data(chunks) == [] <==> forall i :: 0 <= i < |chunks| ==> chunks[i].data == []
    decreases |chunks|
  {
    if chunks != [] {
      DataEmpty(chunks[..|chunks| - 1]);
    }
  }

  /** The verdict as the wire lets it through; only its diagnostics may have been dropped. */
  ghost predicate ArrivesAs(outcome: Outcome, verdict: Outcome) {
    outcome == Arriving(verdict) || outcome == Arriving(verdict).(diagnostic := None)
  }

  /** What Core holds of a verdict that arrived: the plugin's own words. Only a missing reason is filled
      in, from an error beside the verdict, and a missing duration, from the time taken. */
  ghost predicate TellsOf(o: Outcome, plugin: Outcome, err: Option<string>, elapsed: int) {
    && o.kind == (if Declared(plugin.kind) then plugin.kind else UNKNOWN)
    && o.scope == plugin.scope && o.usage == plugin.usage && o.upstreamBody == plugin.upstreamBody
    && o.upstreamStatus == ToInt32(plugin.upstreamStatus)
    && (ShouldFailover(o) <==> ShouldFailover(plugin))
    && o.reason == (if plugin.reason == "" && err.Some? then err.value else plugin.reason)
    && o.retryAfter == WholeMs(plugin.retryAfter) * 1_000_000
    && o.duration == WholeMs(if plugin.duration != 0 then plugin.duration else elapsed) * 1_000_000
  }

  lemma ArrivingTells(plugin: Outcome, err: Option<string>, elapsed: int)
    ensures TellsOf(Arriving(Verdict(plugin, err, elapsed)), plugin, err, elapsed)
    ensures SameDiagnostic(plugin.diagnostic, Arriving(Verdict(plugin, err, elapsed)).diagnostic)
  {
    WireRoundTrip(Verdict(plugin, err, elapsed));
    ArrivesFieldByField(Verdict(plugin, err, elapsed));
  }

  lemma CarriedArrives(c: Chunk, verdict: Outcome)
    requires CarriesVerdict(c, verdict)
    ensures ArrivesAs(FromWire(c.final.value), verdict)
  {
    WireRoundTrip(verdict);
    WireRoundTrip(verdict.(diagnostic := None));
  }

  /** A received prefix of the stream ends in its final chunk exactly when nothing is missing. */
  lemma FinalOfPrefix(offered: seq<Chunk>, ops: seq<Op>, verdict: Outcome, size: nat, r: nat)
    requires ServerStream(offered, ops, verdict, size) && r <= |offered|
    ensures FirstFinal(offered[..r]) == if r == |offered| && Finished(offered) then r - 1 else r
  {
    var k := FirstFinal(offered[..r]);
    if k < r {
      assert HasFinal(offered[..r][k]);
    }
    if r == |offered| && Finished(offered) {
      FirstFinalAt(offered[..r], r - 1);
    }
  }

  /** Completion ordering: as long as the final chunk is not counted in, the data is a strict prefix
      of a body with completion bytes. */
  lemma {:induction false} StrictBeforeFinal(offered: seq<Chunk>, ops: seq<Op>, verdict: Outcome, size: nat, k: nat)
    requires size > 0 && ServerStream(offered, ops, verdict, size) && CompletionBytes(ops) > 0
    requires k <= |offered| && (Finished(offered) ==> k < |offered|)
    ensures Data(offered[..k]) <= Body(ops) && |Data(offered[..k])| < |Body(ops)|
  {
    DataPrefix(offered, k);
    if Finished(offered) {
      var n := |offered|;
      DataPrefix(offered[..n - 1], k);
      assert offered[..n - 1][..k] == offered[..k];
      assert Data(offered) == Data(offered[..n - 1]) + offered[n - 1].data;
    }
  }

  /**
   * Any transport, any cut of what the peer received, any downstream writer. The downstream only
   * ever sees a prefix of the plugin's bytes; no error means all of them and the plugin's verdict, with
   * its diagnostics or without; an error is never retryable and passes for no other verdict; and if
   * the downstream has everything, then Core holds the plugin's usage, error or not, provided there
   * were completion bytes or there is no usage to lose.
   */
  method Deliver(ops: seq<Op>, plugin: Outcome, pluginErr: Option<string>, elapsed: int, size: nat,
                 fits: Chunk -> bool, bodyBudget: nat, fails: nat -> bool, received: nat, broken: bool,
                 drops: nat -> nat, errs: nat -> bool)
    returns (outcome: Outcome, err: Option<ClientError>, body: seq<byte>, ghost at: nat)
    requires size > 0
    ensures body <= Body(ops)
    ensures err.None? ==> body == Body(ops) && ArrivesAs(outcome, Verdict(plugin, pluginErr, elapsed))
    ensures err.None? ==> TellsOf(outcome, plugin, pluginErr, elapsed)
    ensures err.None? ==> outcome.diagnostic.None? || SameDiagnostic(plugin.diagnostic, outcome.diagnostic)
    ensures err.Some? ==> !ShouldFailover(outcome) && (outcome.kind == UNKNOWN || outcome.kind == STREAM_ABORTED)
    ensures (CompletionBytes(ops) > 0 || plugin.usage.None?) && body == Body(ops) ==> outcome.usage == plugin.usage
  {
    var stream := new Stream(fails);
    var rpc := StreamServer.ForwardStream(stream, size, fits, bodyBudget, ops, plugin, pluginErr, elapsed);
    var all := if stream.broken.Some? then stream.delivered + [stream.broken.value] else stream.delivered;
    assert all == stream.Offered();
    var r := Min(received, |all|);
    var w := new Downstream(drops, errs);
    outcome, err, at := StreamClient.ForwardStream(all[..r], broken, w);
    body := w.body;
    DeliveredHonestly(all, ops, plugin, pluginErr, elapsed, size, r, broken, outcome, err, at, body, w.writes);
  }

  /** What a reception of the first chunks of a server's stream says of the plugin. */
  lemma {:induction false} DeliveredHonestly(offered: seq<Chunk>, ops: seq<Op>, plugin: Outcome,
                                             pluginErr: Option<string>, elapsed: int, size: nat, r: nat, broken: bool,
                                             outcome: Outcome, err: Option<ClientError>, at: nat, body: seq<byte>,
                                             writes: nat)
    requires size > 0 && ServerStream(offered, ops, Verdict(plugin, pluginErr, elapsed), size) && r <= |offered|
    requires Reception(offered[..r], broken, outcome, err, at, body, writes)
    ensures body <= Body(ops)
    ensures err.None? ==> body == Body(ops) && ArrivesAs(outcome, Verdict(plugin, pluginErr, elapsed))
    ensures err.None? ==> TellsOf(outcome, plugin, pluginErr, elapsed)
    ensures err.None? ==> outcome.diagnostic.None? || SameDiagnostic(plugin.diagnostic, outcome.diagnostic)
    ensures err.Some? ==> !ShouldFailover(outcome) && (outcome.kind == UNKNOWN || outcome.kind == STREAM_ABORTED)
    ensures (CompletionBytes(ops) > 0 || plugin.usage.None?) && body == Body(ops) ==> outcome.usage == plugin.usage
  {
    if err.Some? {
      FailedOutcomeIs(offered[..r], at, err.value);
    }
    assert Received(offered, r, outcome, err, at, body);
    ReceivedIsHonest(offered, ops, Verdict(plugin, pluginErr, elapsed), size, r, outcome, err, at, body);
    ArrivingTells(plugin, pluginErr, elapsed);
  }

  /** How a client's run over the first `r` chunks of a stream can end, whatever its downstream does. */
  ghost predicate Received(offered: seq<Chunk>, r: nat, outcome: Outcome, err: Option<ClientError>, at: nat,
                           body: seq<byte>)
  {
    && at <= r <= |offered|
    && (err.None? ==> at == FirstFinal(offered[..r]) + 1 && outcome == FromWire(offered[..r][at - 1].final.value))
    && (err.Some? ==> at <= FirstFinal(offered[..r]) && outcome == FailedOutcome(offered[..r], at, err.value))
    && (WriteFailure(err) ==> at < r && body <= Data(offered[..r][..at + 1]))
    && (!WriteFailure(err) ==> body == Data(offered[..r][..at]))
    && (err.Some? && !WriteFailure(err) ==> at == r)
  }

  /** The verdict is held once the final chunk was reached, even if its data could not be written. */
  ghost predicate ReachedFinal(offered: seq<Chunk>, err: Option<ClientError>, at: nat) {
    Finished(offered) && |offered| == if WriteFailure(err) then at + 1 else at
  }

  lemma ReceivedOutcome(offered: seq<Chunk>, ops: seq<Op>, verdict: Outcome, size: nat, r: nat,
                        outcome: Outcome, err: Option<ClientError>, at: nat, body: seq<byte>)
    requires ServerStream(offered, ops, verdict, size) && Received(offered, r, outcome, err, at, body)
    ensures err.None? ==> ReachedFinal(offered, err, at) && ArrivesAs(outcome, verdict)
    ensures ReachedFinal(offered, err, at) ==> outcome.usage == verdict.usage
    ensures !ReachedFinal(offered, err, at) ==> outcome == ZERO_OUTCOME
  {
    FinalOfPrefix(offered, ops, verdict, size, r);
    if r == |offered| && Finished(offered) {
      CarriedArrives(offered[r - 1], verdict);
    }
  }

  lemma {:induction false} ReceivedIsHonest(offered: seq<Chunk>, ops: seq<Op>, verdict: Outcome, size: nat, r: nat,
                                            outcome: Outcome, err: Option<ClientError>, at: nat, body: seq<byte>)
    requires size > 0 && ServerStream(offered, ops, verdict, size)
    requires Received(offered, r, outcome, err, at, body)
    ensures body <= Body(ops)
    ensures err.None? ==> body == Body(ops) && ArrivesAs(outcome, verdict)
    ensures CompletionBytes(ops) > 0 && body == Body(ops) ==> outcome.usage == verdict.usage
    ensures verdict.usage.None? ==> outcome.usage.None?
  {
    ReceivedOutcome(offered, ops, verdict, size, r, outcome, err, at, body);
    var k := if WriteFailure(err) then at + 1 else at;
    assert offered[..r][..k] == offered[..k];
    DataPrefix(offered, k);
    assert offered[..|offered|] == offered;
    if CompletionBytes(ops) > 0 && !ReachedFinal(offered, err, at) {
      StrictBeforeFinal(offered, ops, verdict, size, k);
    }
  }

  // ---- When the usage may come too late ----

  /** A client run that ends with the whole body and without the verdict's usage. */
  ghost predicate LosesUsage(offered: seq<Chunk>, ops: seq<Op>, verdict: Outcome, size: nat, r: nat,
                             outcome: Outcome, err: Option<ClientError>, at: nat, body: seq<byte>)
  {
    && ServerStream(offered, ops, verdict, size) && Received(offered, r, outcome, err, at, body)
    && body == Body(ops) && outcome.usage != verdict.usage
  }

  /** The design goal for this plugin run: over any cut stream and any downstream, whoever has the
      whole body has the usage. */
  ghost predicate UsageFirst(ops: seq<Op>, verdict: Outcome, size: nat) {
    forall offered, r, outcome, err, at, body :: !LosesUsage(offered, ops, verdict, size, r, outcome, err, at, body)
  }

  /** It is met exactly when something was written after completion began, or there is no usage. */
  lemma UsageFirstExactly(ops: seq<Op>, verdict: Outcome, size: nat)
    requires size > 0
    ensures UsageFirst(ops, verdict, size) <==> CompletionBytes(ops) > 0 || verdict.usage.None?
  {
    if CompletionBytes(ops) > 0 || verdict.usage.None? {
      forall offered, r, outcome, err, at, body
        ensures !LosesUsage(offered, ops, verdict, size, r, outcome, err, at, body)
      {
        if LosesUsage(offered, ops, verdict, size, r, outcome, err, at, body) {
          ReceivedIsHonest(offered, ops, verdict, size, r, outcome, err, at, body);
        }
      }
    } else {
      var sent := Unfinished(ops, size);
      UnfinishedIsOpen(ops, size);
      OpenIsServerStream(sent, ops, verdict, size);
      FinalOfPrefix(sent, ops, verdict, size, |sent|);
      assert sent[..|sent|] == sent;
      assert LosesUsage(sent, ops, verdict, size, |sent|, ZERO_OUTCOME, Some(RecvFailed), |sent|, Body(ops));
    }
  }

  /** The metadata and the body in pieces, before any final chunk. */
  function MetaAndPieces(meta: Chunk, body: seq<byte>, size: nat): seq<Chunk>
    requires size > 0
  {
    if body == [] then [meta]
    else
      var n := Min(size, |body|);
      MetaAndPieces(meta, body[..|body| - n], size) + [DataChunk(body[|body| - n..])]
  }

  function Unfinished(ops: seq<Op>, size: nat): seq<Chunk>
    requires size > 0
  {
    if Responds(ops) then MetaAndPieces(MetaChunk(StatusCode(ops), SentHeaders(ops)), Body(ops), size) else []
  }

  lemma {:induction false} PiecesAreFramed(meta: Chunk, body: seq<byte>, size: nat)
    requires size > 0 && meta.data == []
    ensures var chunks := MetaAndPieces(meta, body, size);
            Framed(chunks, meta, size) && chunks != [] && Data(chunks) == body
    decreases |body|
  {
    if body == [] {
      DataAppend([], meta);
      assert [] + [meta] == [meta];
      assert Data([]) == [];
    } else {
      var n := Min(size, |body|);
      var front := MetaAndPieces(meta, body[..|body| - n], size);
      PiecesAreFramed(meta, body[..|body| - n], size);
      FramedAppend(front, DataChunk(body[|body| - n..]), meta, size);
      DataAppend(front, DataChunk(body[|body| - n..]));
    }
  }

  lemma {:induction false} UnfinishedIsOpen(ops: seq<Op>, size: nat)
    requires size > 0 && CompletionBytes(ops) == 0
    ensures OpenStream(Unfinished(ops, size), ops, size) && Data(Unfinished(ops, size)) == Body(ops)
  {
    if Responds(ops) {
      PiecesAreOpen(ops, MetaChunk(StatusCode(ops), SentHeaders(ops)), Body(ops), size);
    } else {
      SilentHasNoBody(ops);
    }
  }

  lemma {:induction false} PiecesAreOpen(ops: seq<Op>, meta: Chunk, body: seq<byte>, size: nat)
    requires size > 0 && CompletionBytes(ops) == 0 && Responds(ops)
    requires meta == MetaChunk(StatusCode(ops), SentHeaders(ops)) && body == Body(ops)
    ensures OpenStream(MetaAndPieces(meta, body, size), ops, size) && Data(MetaAndPieces(meta, body, size)) == body
  {
    var chunks := MetaAndPieces(meta, body, size);
    PiecesAreFramed(meta, body, size);
    FramedIsOpen(chunks, meta, size);
    assert body[..|body|] == body;
    PrefixIsOpen(chunks, meta, ops, size, |body|);
  }

  /** A completion that begins after the last byte: the mark is set and the promise fails. */
  lemma BegunTooLate(verdict: Outcome, size: nat)
    requires size > 0 && verdict.usage.Some?
    ensures var ops := [Op.Write([1]), BeginCompletion];
            Body(ops) == [1] && MarkOf(ops) == Some(1) && !UsageFirst(ops, verdict, size)
  {
    var write := [Op.Write([1])];
    var ops := [Op.Write([1]), BeginCompletion];
    assert ops == write + [BeginCompletion] && write[..0] == [];
    assert Body(write[..0]) == [] && MarkOf(write[..0]) == None;
    assert Body(write) == [1] && MarkOf(write) == None;
    Begun(write);
    UsageFirstExactly(ops, verdict, size);
  }

  /** The real server and the real client: without completion bytes, a transport that breaks right
      before the final chunk leaves the downstream with the whole body and Core with no verdict. */
  method CutBeforeFinal(ops: seq<Op>, plugin: Outcome, pluginErr: Option<string>, elapsed: int, size: nat,
                        bodyBudget: nat)
    returns (outcome: Outcome, err: Option<ClientError>, body: seq<byte>)
    requires size > 0 && |plugin.upstreamBody| <= bodyBudget && (pluginErr.Some? ==> plugin.kind != UNKNOWN)
    requires CompletionBytes(ops) == 0
    ensures body == Body(ops) && outcome == ZERO_OUTCOME && err == Some(RecvFailed)
  {
    var chunks := ServeReliably(ops, plugin, pluginErr, elapsed, size, bodyBudget);
    var n := |chunks| - 1;
    FinalOfPrefix(chunks, ops, Verdict(plugin, pluginErr, elapsed), size, n);
    assert Data(chunks) == Data(chunks[..n]) + chunks[n].data;
    var w := new Downstream(_ => 0, _ => false);
    ghost var at;
    outcome, err, at := StreamClient.ForwardStream(chunks[..n], true, w);
    body := w.body;
    assert chunks[..n][..at] == chunks[..at];
  }

  // ---- No failures ----

  /** The status the downstream gets, if it gets one. */
  function ExpectedStatus(ops: seq<Op>): int {
    var code := ToInt32(if StatusCode(ops) == 0 then STATUS_OK else StatusCode(ops));
    if code == 0 then STATUS_OK else code
  }

  /** Exactly when the downstream response is committed. A status that the conversion to 32 bits
      turns into 0 looks like no status at all, and then only headers or data commit. */
  predicate Committed(ops: seq<Op>) {
    Responds(ops) && (ToInt32(if StatusCode(ops) == 0 then STATUS_OK else StatusCode(ops)) != 0
                      || |SentHeaders(ops)| > 0 || Body(ops) != [])
  }

  /** For every status that fits in 32 bits the promise holds as stated: committed if and only if
      the plugin called Write or WriteHeader, with its first status or 200. */
  lemma {:induction false} OrdinaryStatus(ops: seq<Op>)
    requires -0x8000_0000 <= StatusCode(ops) < 0x8000_0000
    ensures Committed(ops) <==> Responds(ops)
    ensures ExpectedStatus(ops) == if StatusCode(ops) == 0 then 200 else StatusCode(ops)
  {
    Int32RoundTrip(StatusCode(ops));
    Int32RoundTrip(STATUS_OK);
  }

  /** Beyond 32 bits it can fail: a response begun by its status alone is never committed. */
  lemma WideStatusIsLost()
    ensures var ops := [WriteHeader(0x1_0000_0000)]; Responds(ops) && !Committed(ops)
  {
    var ops := [WriteHeader(0x1_0000_0000)];
    assert ops[..0] == [];
    assert !Responds(ops[..0]);
    assert StatusCode(ops) == 0x1_0000_0000;
    assert SentHeaders(ops) == LastHeaders(ops) == LastHeaders(ops[..0]) == map[];
    assert Body(ops) == Body(ops[..0]) + [];
  }

  /** Responding but uncommitted happens in that one way only. */
  lemma {:induction false} CommitException(ops: seq<Op>)
    ensures Responds(ops) && !Committed(ops)
       <==> Responds(ops) && StatusCode(ops) != 0 && StatusCode(ops) % 0x1_0000_0000 == 0
            && SentHeaders(ops) == map[] && Body(ops) == []
  {
    if |SentHeaders(ops)| == 0 {
      assert SentHeaders(ops).Keys == {};
      assert SentHeaders(ops) == map[];
    }
  }

  /** A stream that its first chunk does not start is started by its first data, if there is any. */
  lemma {:induction false} StartsWithData(chunks: seq<Chunk>)
    requires forall i :: 0 <= i < |chunks| ==> chunks[i].status == 0 && chunks[i].headers == map[]
    ensures var s := FirstStart(chunks);
            && (s < |chunks| <==> Data(chunks) != [])
            && (s < |chunks| ==> chunks[s].status == 0 && chunks[s].headers == map[])
  {
    DataEmpty(chunks);
    forall i | 0 <= i < |chunks|
      ensures Starts(chunks[i]) <==> chunks[i].data != []
    {
      assert |chunks[i].headers| == 0;
    }
    if FirstStart(chunks) == |chunks| {
      forall i | 0 <= i < |chunks|
        ensures chunks[i].data == []
      {
        FirstStartAt(chunks, i);
      }
    }
  }

  lemma NoHeaders(headers: Headers)
    requires |headers| == 0
    ensures headers == map[]
  {
    assert headers.Keys == {};
  }

  lemma {:induction false} StartOfSilent(chunks: seq<Chunk>, ops: seq<Op>, verdict: Outcome, size: nat)
    requires ServerStream(chunks, ops, verdict, size) && Finished(chunks) && !Responds(ops) && Body(ops) == []
    ensures FirstStart(chunks) == |chunks|
  {
    assert |chunks| == 1;
    assert chunks[..0] == [];
    assert chunks[0].data == [];
    StartsWithData(chunks);
  }

  lemma {:induction false} StartOfStream(chunks: seq<Chunk>, ops: seq<Op>, verdict: Outcome, size: nat)
    requires ServerStream(chunks, ops, verdict, size) && Finished(chunks) && Responds(ops) && |chunks| > 1
    ensures var s := FirstStart(chunks);
            && (s < |chunks| <==> Committed(ops))
            && (s < |chunks| ==> ChunkStatus(chunks[s]) == ExpectedStatus(ops) && chunks[s].headers == SentHeaders(ops))
  {
    var meta := MetaChunk(StatusCode(ops), SentHeaders(ops));
    assert chunks[0] == meta;
    if !Starts(meta) {
      NoHeaders(meta.headers);
      forall i | 0 <= i < |chunks|
        ensures chunks[i].status == 0 && chunks[i].headers == map[]
      {
        if 0 < i < |chunks| - 1 {
          assert chunks[i] == DataChunk(chunks[i].data);
        }
      }
      StartsWithData(chunks);
    }
  }

  lemma {:induction false} SilentHasNoBody(ops: seq<Op>)
    requires !Responds(ops)
    ensures Body(ops) == []
    decreases |ops|
  {
    if ops != [] {
      SilentHasNoBody(ops[..|ops| - 1]);
    }
  }

  lemma {:induction false} RespondedHasMeta(chunks: seq<Chunk>, ops: seq<Op>, verdict: Outcome, size: nat)
    requires ServerStream(chunks, ops, verdict, size) && Finished(chunks) && Responds(ops)
    ensures |chunks| > 1
  {
    assert !MetaChunk(StatusCode(ops), SentHeaders(ops)).done;
  }

  /**
   * Without transport, budget or downstream failure: the body is the concatenation of all Writes,
   * the response is committed once or not at all with the expected status and headers, and the
   * verdict is the plugin's, diagnostics and all, as the wire lets it through.
   */
  method DeliverReliably(ops: seq<Op>, plugin: Outcome, pluginErr: Option<string>, elapsed: int, size: nat,
                         bodyBudget: nat)
    returns (outcome: Outcome, err: Option<ClientError>, body: seq<byte>, commits: nat, status: int, headers: Headers)
    requires size > 0
    requires |plugin.upstreamBody| <= bodyBudget
    requires pluginErr.Some? ==> plugin.kind != UNKNOWN
    ensures err.None? && body == Body(ops)
    ensures outcome == Arriving(Verdict(plugin, pluginErr, elapsed))
    ensures TellsOf(outcome, plugin, pluginErr, elapsed) && SameDiagnostic(plugin.diagnostic, outcome.diagnostic)
    ensures commits == if Committed(ops) then 1 else 0
    ensures commits == 1 ==> status == ExpectedStatus(ops) && headers == Lines(SentHeaders(ops))
  {
    var chunks := ServeReliably(ops, plugin, pluginErr, elapsed, size, bodyBudget);
    AllArrives(chunks, ops, Verdict(plugin, pluginErr, elapsed), size);
    WireRoundTrip(Verdict(plugin, pluginErr, elapsed));
    ArrivingTells(plugin, pluginErr, elapsed);
    outcome, err, body, commits, status, headers := ReceiveReliably(chunks);
  }

  /** A whole stream received into a writer that takes everything. */
  method ReceiveReliably(chunks: seq<Chunk>)
    returns (outcome: Outcome, err: Option<ClientError>, body: seq<byte>, commits: nat, status: int, headers: Headers)
    requires chunks != [] && FirstFinal(chunks) == |chunks| - 1
    ensures err.None? && outcome == FromWire(chunks[|chunks| - 1].final.value) && body == Data(chunks)
    ensures CommittedAs(commits, status, headers, chunks, |chunks|)
  {
    var w := new Downstream(_ => 0, _ => false);
    ghost var at;
    outcome, err, at := StreamClient.ForwardStream(chunks, false, w);
    body, commits, status, headers := w.body, w.commits, w.status, w.headers;
    assert chunks[..|chunks|] == chunks;
  }

  method ServeReliably(ops: seq<Op>, plugin: Outcome, pluginErr: Option<string>, elapsed: int, size: nat,
                       bodyBudget: nat)
    returns (chunks: seq<Chunk>)
    requires size > 0 && |plugin.upstreamBody| <= bodyBudget && (pluginErr.Some? ==> plugin.kind != UNKNOWN)
    ensures ServerStream(chunks, ops, Verdict(plugin, pluginErr, elapsed), size) && Finished(chunks)
    ensures chunks[|chunks| - 1].final == Some(ToWire(Verdict(plugin, pluginErr, elapsed)))
  {
    var stream := new Stream(_ => false);
    var rpc := StreamServer.ForwardStream(stream, size, _ => true, bodyBudget, ops, plugin, pluginErr, elapsed);
    return stream.delivered;
  }

  lemma {:induction false} AllArrives(chunks: seq<Chunk>, ops: seq<Op>, verdict: Outcome, size: nat)
    requires ServerStream(chunks, ops, verdict, size) && Finished(chunks)
    ensures FirstFinal(chunks) == |chunks| - 1 && Data(chunks) == Body(ops)
    ensures var s := FirstStart(chunks);
            && (s < |chunks| <==> Committed(ops))
            && (s < |chunks| ==> ChunkStatus(chunks[s]) == ExpectedStatus(ops) && chunks[s].headers == SentHeaders(ops))
  {
    FinalOfPrefix(chunks, ops, verdict, size, |chunks|);
    assert chunks[..|chunks|] == chunks;
    if Responds(ops) {
      RespondedHasMeta(chunks, ops, verdict, size);
      StartOfStream(chunks, ops, verdict, size);
    } else {
      SilentHasNoBody(ops);
      StartOfSilent(chunks, ops, verdict, size);
    }
  }
}
