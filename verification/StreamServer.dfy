/** The server's ForwardStream: run the plugin against the writer, then send the final chunk. */
module StreamServer {
  import opened Bytes
  import opened Outcomes
  import opened StreamChunks
  import opened StreamWriter

  /** What a writer's history means for the plugin's operations. */
  ghost predicate Explained(ops: seq<Op>, requested: seq<byte>, mark: Option<nat>, sent: bool, wroteHeader: bool,
                            meta: Chunk)
  {
    && requested == Body(ops) && mark == MarkOf(ops)
    && (sent || wroteHeader <==> Responds(ops))
    && (sent ==> meta == MetaChunk(StatusCode(ops), SentHeaders(ops)))
    && !meta.done && meta.data == []
  }

  /** Where the operations so far leave the writer. */
  ghost predicate Standing(ops: seq<Op>, sent: bool, code: int, headers: Headers) {
    (sent <==> HasWrite(ops)) && code == StatusCode(ops) && headers == LastHeaders(ops)
  }

  ghost predicate Explains(w: Writer, ops: seq<Op>)
    reads w
  {
    Explained(ops, w.requested, w.mark, w.sent, w.wroteHeader, w.meta)
  }

  ghost predicate Tracks(w: Writer, ops: seq<Op>)
    reads w
  {
    Explains(w, ops) && Standing(ops, w.sent, w.code, w.headers)
  }

  lemma OneMoreOp(ops: seq<Op>, op: Op)
    ensures (ops + [op])[..|ops + [op]| - 1] == ops
  {
  }

  lemma {:induction false} SilentHasNoStatus(ops: seq<Op>)
    requires !Responds(ops)
    ensures StatusCode(ops) == 0 && !HasWrite(ops)
    decreases |ops|
  {
    if ops != [] {
      SilentHasNoStatus(ops[..|ops| - 1]);
    }
  }

  lemma AfterWrite(ops: seq<Op>, data: seq<byte>, requested: seq<byte>, mark: Option<nat>, sent: bool,
                   wroteHeader: bool, meta: Chunk, code: int, headers: Headers)
    requires Explained(ops, requested, mark, sent, wroteHeader, meta) && Standing(ops, sent, code, headers)
    ensures var m := if sent then meta else MetaChunk(code, headers);
            && Explained(ops + [Op.Write(data)], requested + data, mark, true, wroteHeader, m)
            && Standing(ops + [Op.Write(data)], true, code, headers)
  {
    OneMoreOp(ops, Op.Write(data));
    if !Responds(ops) {
      SilentHasNoStatus(ops);
    }
  }

  lemma AfterHeader(ops: seq<Op>, op: Op, requested: seq<byte>, mark: Option<nat>, sent: bool,
                    wroteHeader: bool, meta: Chunk, code: int, headers: Headers)
    requires Explained(ops, requested, mark, sent, wroteHeader, meta) && Standing(ops, sent, code, headers)
    requires TouchesHeaders(op)
    ensures Explained(ops + [op], requested, mark, sent, wroteHeader, meta)
    ensures Standing(ops + [op], sent, code, Touched(headers, op))
  {
    OneMoreOp(ops, op);
  }

  lemma AfterWriteHeader(ops: seq<Op>, status: int, requested: seq<byte>, mark: Option<nat>, sent: bool,
                         wroteHeader: bool, meta: Chunk, code: int, headers: Headers)
    requires Explained(ops, requested, mark, sent, wroteHeader, meta) && Standing(ops, sent, code, headers)
    ensures Explained(ops + [WriteHeader(status)], requested, mark, sent, true, meta)
    ensures Standing(ops + [WriteHeader(status)], sent, if sent || wroteHeader then code else status, headers)
    ensures sent ==> Explained(ops + [WriteHeader(status)], requested, mark, sent, wroteHeader, meta)
  {
    OneMoreOp(ops, WriteHeader(status));
  }

  lemma AfterBegin(ops: seq<Op>, requested: seq<byte>, mark: Option<nat>, sent: bool, wroteHeader: bool,
                   meta: Chunk, code: int, headers: Headers)
    requires Explained(ops, requested, mark, sent, wroteHeader, meta) && Standing(ops, sent, code, headers)
    ensures Explained(ops + [BeginCompletion], requested, if mark.Some? then mark else Some(|requested|), sent,
                      wroteHeader, meta)
    ensures Standing(ops + [BeginCompletion], sent, code, headers)
  {
    OneMoreOp(ops, BeginCompletion);
  }

  method PerformWrite(w: Writer, data: seq<byte>, ghost ops: seq<Op>)
    requires w.Valid() && Tracks(w, ops)
    modifies w, w.stream
    ensures w.Valid() && Tracks(w, ops + [Op.Write(data)])
  {
    AfterWrite(ops, data, w.requested, w.mark, w.sent, w.wroteHeader, w.meta, w.code, w.headers);
    var _, _ := w.Write(data);
  }

  method PerformHeader(w: Writer, op: Op, ghost ops: seq<Op>)
    requires w.Valid() && Tracks(w, ops) && TouchesHeaders(op)
    modifies w`headers
    ensures w.Valid() && Tracks(w, ops + [op])
  {
    AfterHeader(ops, op, w.requested, w.mark, w.sent, w.wroteHeader, w.meta, w.code, w.headers);
    w.TouchHeaders(op);
  }

  method PerformWriteHeader(w: Writer, code: int, ghost ops: seq<Op>)
    requires w.Valid() && Tracks(w, ops)
    modifies w`code, w`wroteHeader
    ensures w.Valid() && Tracks(w, ops + [WriteHeader(code)])
  {
    AfterWriteHeader(ops, code, w.requested, w.mark, w.sent, w.wroteHeader, w.meta, w.code, w.headers);
    w.WriteHeader(code);
  }

  method PerformBegin(w: Writer, ghost ops: seq<Op>)
    requires w.Valid() && Tracks(w, ops)
    modifies w`completing, w`mark
    ensures w.Valid() && Tracks(w, ops + [BeginCompletion])
  {
    ghost var mark := w.mark;
    w.BeginStreamCompletion();
    AfterBegin(ops, w.requested, mark, w.sent, w.wroteHeader, w.meta, w.code, w.headers);
  }

  method Perform(w: Writer, op: Op, ghost before: seq<Op>)
    requires w.Valid() && Tracks(w, before)
    modifies w, w.stream
    ensures w.Valid() && Tracks(w, before + [op])
  {
    match op
    case WriteHeader(code) => PerformWriteHeader(w, code, before);
    case Write(data) => PerformWrite(w, data, before);
    case BeginCompletion => PerformBegin(w, before);
    case _ => PerformHeader(w, op, before);
  }

  /** The first `n` operations, one after the other. */
  ghost function First(ops: seq<Op>, n: nat): seq<Op>
    requires n <= |ops|
  {
    if n == 0 then [] else First(ops, n - 1) + [ops[n - 1]]
  }

  lemma {:induction false} FirstIsPrefix(ops: seq<Op>, n: nat)
    requires n <= |ops|
    ensures First(ops, n) == ops[..n]
    decreases n
  {
    if n > 0 {
      FirstIsPrefix(ops, n - 1);
    }
  }

  method RunPlugin(w: Writer, ops: seq<Op>)
    requires w.Valid() && Tracks(w, [])
    modifies w, w.stream
    ensures w.Valid() && Tracks(w, First(ops, |ops|))
  {
    for n := 0 to |ops|
      invariant w.Valid() && Tracks(w, First(ops, n))
    {
      Perform(w, ops[n], First(ops, n));
    }
  }

  // ---- The final chunk ----

  /** An error beside a verdict only fills in a missing reason, and the time taken a missing duration. */
  function Verdict(o: Outcome, err: Option<string>, elapsed: int): Outcome {
    o.(reason := if err.Some? && o.reason == "" then err.value else o.reason,
       duration := if o.duration == 0 then elapsed else o.duration)
  }

  function FinalChunk(o: WireOutcome, tail: seq<byte>): Chunk {
    Chunk(0, map[], tail, true, Some(o))
  }

  /** Diagnostics are dropped rather than losing a verdict that does not fit with them. */
  function CheckedFinal(o: WireOutcome, tail: seq<byte>, bodyBudget: nat, fits: Chunk -> bool): Option<Chunk> {
    var kept := if fits(FinalChunk(o, tail)) then o else o.(diagnostic := None);
    if |o.upstreamBody| > bodyBudget || !fits(FinalChunk(kept, tail)) then None
    else Some(FinalChunk(kept, tail))
  }

  /** The final chunk is refused exactly when the upstream body is over its budget, or the message does
      not fit even without its diagnostics; and they are dropped only if it does not fit with them. */
  lemma CheckedFinalIs(o: WireOutcome, tail: seq<byte>, bodyBudget: nat, fits: Chunk -> bool)
    ensures var whole, bare := Chunk(0, map[], tail, true, Some(o)),
                               Chunk(0, map[], tail, true, Some(o.(diagnostic := None)));
            var r := CheckedFinal(o, tail, bodyBudget, fits);
            && (r.None? <==> |o.upstreamBody| > bodyBudget || (!fits(whole) && !fits(bare)))
            && (r.Some? ==> r.value == if fits(whole) then whole else bare)
  {
  }

  ghost predicate CarriesVerdict(c: Chunk, o: Outcome) {
    && c.done && c.final.Some? && c.status == 0 && c.headers == map[]
    && (c.final == Some(ToWire(o)) || c.final == Some(ToWire(o).(diagnostic := None)))
  }

  function LastBytes(s: seq<byte>, n: nat): seq<byte>
    requires n <= |s|
  {
    s[|s| - n..]
  }

  /** The completion bytes that travel with the verdict. */
  function CompletionTail(ops: seq<Op>, size: nat): seq<byte> {
    LastBytes(Body(ops), Min(CompletionBytes(ops), size))
  }

  /** The final chunk of a call, unless it is too large. */
  ghost function FinalOf(ops: seq<Op>, verdict: Outcome, size: nat, bodyBudget: nat, fits: Chunk -> bool)
    : Option<Chunk>
  {
    CheckedFinal(ToWire(verdict), CompletionTail(ops, size), bodyBudget, fits)
  }

  /** Why a call whose sends all went through still ends in an error. */
  ghost predicate Refused(ops: seq<Op>, outcome: Outcome, err: Option<string>, elapsed: int, size: nat,
                          bodyBudget: nat, fits: Chunk -> bool)
  {
    || (Responds(ops) && !fits(MetaChunk(StatusCode(ops), SentHeaders(ops))))
    || (err.Some? && outcome.kind == UNKNOWN)
    || FinalOf(ops, Verdict(outcome, err, elapsed), size, bodyBudget, fits).None?
  }

  ghost predicate Finished(offered: seq<Chunk>) {
    offered != [] && offered[|offered| - 1].done
  }

  /** All that the peer can ever see of one call. */
  ghost predicate ServerStream(offered: seq<Chunk>, ops: seq<Op>, verdict: Outcome, size: nat) {
    var n := |offered|;
    && Data(offered) <= Body(ops)
    && (forall i :: 0 <= i < n - 1 ==> !offered[i].done)
    && (forall i :: 1 <= i < n && !offered[i].done ==> offered[i] == DataChunk(offered[i].data))
    && (forall i :: 0 <= i < n ==> |offered[i].data| <= size)
    && (Responds(ops) && n > 0 ==> offered[0] == MetaChunk(StatusCode(ops), SentHeaders(ops)))
    && (!Responds(ops) ==> n <= 1 && (n == 1 ==> offered[0].done))
    && (if Finished(offered) then
          && CarriesVerdict(offered[n - 1], verdict)
          && Data(offered) == Body(ops)
          && offered[n - 1].data == CompletionTail(ops, size)
        else
          CompletionBytes(ops) > 0 ==> |Data(offered)| < |Body(ops)|)
  }

  /** The same, before any final chunk. */
  ghost predicate OpenStream(offered: seq<Chunk>, ops: seq<Op>, size: nat) {
    && Data(offered) <= Body(ops)
    && (forall i :: 0 <= i < |offered| ==> !offered[i].done && |offered[i].data| <= size)
    && (forall i :: 1 <= i < |offered| ==> offered[i] == DataChunk(offered[i].data))
    && (Responds(ops) && offered != [] ==> offered[0] == MetaChunk(StatusCode(ops), SentHeaders(ops)))
    && (!Responds(ops) ==> offered == [])
    && (CompletionBytes(ops) > 0 ==> |Data(offered)| < |Body(ops)|)
  }

  /** What a writer that has not failed still holds: the rest of the body. */
  ghost predicate HoldsRest(carried: seq<byte>, tail: seq<byte>, ops: seq<Op>, size: nat) {
    carried + tail == Body(ops) && |tail| == Min(CompletionBytes(ops), size)
  }

  lemma BooksTellBody(w: Writer, ops: seq<Op>)
    requires w.Valid() && Explains(w, ops)
    ensures OpenStream(w.stream.Offered(), ops, w.size)
    ensures !w.failed ==> HoldsRest(Data(w.stream.delivered), w.completionTail, ops, w.size)
  {
    WireIsOpen(w.stream.delivered, w.stream.broken, w.carried, w.meta, ops, w.size);
    if !w.failed {
      RestIsHeld(Data(w.stream.delivered), w.completionTail, w.requested, w.carried, w.accepted, ops, w.size);
    }
  }

  lemma {:induction false} RestIsHeld(carried: seq<byte>, tail: seq<byte>, requested: seq<byte>, n: nat, accepted: nat,
                                      ops: seq<Op>, size: nat)
    requires n <= |requested| && TailOk(false, tail, requested, n, accepted, MarkOf(ops), size)
    requires requested == Body(ops) && carried == requested[..n]
    ensures HoldsRest(carried, tail, ops, size)
  {
    assert requested[..n] + requested[n..] == requested;
  }

  lemma {:induction false} WireIsOpen(delivered: seq<Chunk>, broken: Option<Chunk>, carried: nat, meta: Chunk,
                                      ops: seq<Op>, size: nat)
    requires WireOk(delivered, broken, Body(ops), carried, MarkOf(ops), meta, size)
    requires !meta.done && meta.data == []
    requires OfferedBy(delivered, broken) != [] ==> Responds(ops)
    requires OfferedBy(delivered, broken) != [] ==> meta == MetaChunk(StatusCode(ops), SentHeaders(ops))
    ensures OpenStream(OfferedBy(delivered, broken), ops, size)
  {
    var offered := OfferedBy(delivered, broken);
    OfferedPrefix(delivered, broken, Body(ops), carried);
    FramedIsOpen(offered, meta, size);
    PrefixIsOpen(offered, meta, ops, size, carried + |LostBy(broken)|);
  }

  lemma {:induction false} PrefixIsOpen(offered: seq<Chunk>, meta: Chunk, ops: seq<Op>, size: nat, n: nat)
    requires n <= |Body(ops)| && Data(offered) == Body(ops)[..n]
    requires CompletionBytes(ops) > 0 ==> n < |Body(ops)|
    requires forall i :: 0 <= i < |offered| ==> !offered[i].done && |offered[i].data| <= size
    requires forall i :: 1 <= i < |offered| ==> offered[i] == DataChunk(offered[i].data)
    requires offered != [] ==> offered[0] == meta == MetaChunk(StatusCode(ops), SentHeaders(ops)) && Responds(ops)
    ensures OpenStream(offered, ops, size)
  {
  }

  /** Delivered data and what a failed Send may have added make a prefix of the requested bytes. */
  lemma {:induction false} OfferedPrefix(delivered: seq<Chunk>, broken: Option<Chunk>, requested: seq<byte>,
                                         carried: nat)
    requires carried + |LostBy(broken)| <= |requested|
    requires carried <= |requested| && Data(delivered) == requested[..carried]
    requires LostBy(broken) == requested[carried..carried + |LostBy(broken)|]
    ensures Data(OfferedBy(delivered, broken)) == requested[..carried + |LostBy(broken)|]
  {
    if broken.Some? {
      DataAppend(delivered, broken.value);
      assert requested[..carried] + LostBy(broken) == requested[..carried + |LostBy(broken)|];
    } else {
      assert requested[..carried] == requested[..carried + |LostBy(broken)|];
    }
  }

  lemma {:induction false} FramedIsOpen(offered: seq<Chunk>, meta: Chunk, size: nat)
    requires Framed(offered, meta, size)
    requires !meta.done && meta.data == []
    ensures forall i :: 0 <= i < |offered| ==> !offered[i].done && |offered[i].data| <= size
    ensures forall i :: 1 <= i < |offered| ==> offered[i] == DataChunk(offered[i].data)
    ensures offered != [] ==> offered[0] == meta
  {
    FramedMeans(offered, meta, size);
    assert forall i :: 1 <= i < |offered| ==> IsPiece(offered[i], size);
  }

  /** What a failed or committed writer says of the metadata chunk. */
  lemma {:induction false} MetaDecides(w: Writer, ops: seq<Op>)
    requires w.Valid() && Explains(w, ops) && w.sent && w.stream.broken.None?
    ensures Responds(ops) && (w.failed <==> !w.fits(MetaChunk(StatusCode(ops), SentHeaders(ops))))
    ensures !w.failed ==> w.stream.delivered != []
  {
  }

  /** A status without any body still commits the response. */
  method Commit(w: Writer, ghost ops: seq<Op>) returns (ok: bool)
    requires w.Valid() && !w.failed && Tracks(w, ops)
    modifies w, w.stream
    ensures OpenStream(w.stream.Offered(), ops, w.size)
    ensures ok ==> w.stream.broken.None? && HoldsRest(Data(w.stream.delivered), w.completionTail, ops, w.size)
    ensures ok && Responds(ops) ==> w.stream.delivered != [] && w.fits(MetaChunk(StatusCode(ops), SentHeaders(ops)))
    ensures !ok ==> Responds(ops)
    ensures !ok && w.stream.broken.None? ==> !w.fits(MetaChunk(StatusCode(ops), SentHeaders(ops)))
    ensures w.stream.broken.Some? ==> w.stream.fails(|w.stream.delivered|)
  {
    assert ops[..|ops|] == ops;
    ok := true;
    if w.sent || w.wroteHeader {
      ok := w.FlushMeta();
    }
    BooksTellBody(w, ops);
    if w.sent && w.stream.broken.None? {
      MetaDecides(w, ops);
    }
  }

  lemma {:induction false} FinalClosesStream(before: seq<Chunk>, c: Chunk, tail: seq<byte>, ops: seq<Op>,
                                             verdict: Outcome, size: nat)
    requires OpenStream(before, ops, size) && HoldsRest(Data(before), tail, ops, size)
    requires CarriesVerdict(c, verdict) && c.data == tail
    requires Responds(ops) ==> before != []
    ensures ServerStream(before + [c], ops, verdict, size)
  {
    DataAppend(before, c);
    TailIs(Data(before), tail, ops, size);
    ClosedStream(before, c, before + [c], ops, verdict, size);
  }

  lemma {:induction false} ClosedStream(before: seq<Chunk>, c: Chunk, all: seq<Chunk>, ops: seq<Op>,
                                        verdict: Outcome, size: nat)
    requires OpenStream(before, ops, size) && (Responds(ops) ==> before != [])
    requires |all| == |before| + 1 && all[|before|] == c && forall i :: 0 <= i < |before| ==> all[i] == before[i]
    requires Data(all) == Body(ops) && CarriesVerdict(c, verdict) && c.data == CompletionTail(ops, size)
    requires |c.data| <= size
    ensures ServerStream(all, ops, verdict, size)
  {
  }

  datatype Rpc = RpcOk | RpcError

  /** With no failed Send the call ends well exactly when nothing is refused, and then its last chunk
      is the final one. */
  method ForwardStream(stream: Stream, size: nat, fits: Chunk -> bool, bodyBudget: nat,
                       ops: seq<Op>, outcome: Outcome, err: Option<string>, elapsed: int) returns (rpc: Rpc)
    requires size > 0 && stream.delivered == [] && stream.broken.None?
    modifies stream
    ensures ServerStream(stream.Offered(), ops, Verdict(outcome, err, elapsed), size)
    ensures stream.broken.None? ==> (rpc == RpcError <==> Refused(ops, outcome, err, elapsed, size, bodyBudget, fits))
    ensures rpc == RpcOk ==> EndsWith(stream, FinalOf(ops, Verdict(outcome, err, elapsed), size, bodyBudget, fits))
    ensures stream.broken.Some? ==> rpc == RpcError && stream.fails(|stream.delivered|)
  {
    var w := new Writer(stream, size, fits);
    RunPlugin(w, ops);
    FirstIsPrefix(ops, |ops|);
    assert ops[..|ops|] == ops;
    rpc := Conclude(w, First(ops, |ops|), outcome, err, elapsed, bodyBudget);
  }

  ghost predicate EndsWith(stream: Stream, final: Option<Chunk>)
    reads stream
  {
    && stream.broken.None? && stream.delivered != []
    && final == Some(stream.delivered[|stream.delivered| - 1])
  }

  /** After the plugin has returned: its transport failures first, then its error, then the final chunk. */
  method Conclude(w: Writer, ghost ops: seq<Op>, outcome: Outcome, err: Option<string>, elapsed: int,
                  bodyBudget: nat)
    returns (rpc: Rpc)
    requires w.Valid() && Tracks(w, ops)
    modifies w, w.stream
    ensures ServerStream(w.stream.Offered(), ops, Verdict(outcome, err, elapsed), w.size)
    ensures w.stream.broken.None? ==>
              (rpc == RpcError <==> Refused(ops, outcome, err, elapsed, w.size, bodyBudget, w.fits))
    ensures rpc == RpcOk ==>
              EndsWith(w.stream, FinalOf(ops, Verdict(outcome, err, elapsed), w.size, bodyBudget, w.fits))
    ensures w.stream.broken.Some? ==> rpc == RpcError && w.stream.fails(|w.stream.delivered|)
  {
    BooksTellBody(w, ops);
    OpenIsServerStream(w.stream.Offered(), ops, Verdict(outcome, err, elapsed), w.size);
    if w.failed {
      if w.stream.broken.None? {
        MetaDecides(w, ops);
      }
      return RpcError;
    }
    if err.Some? && outcome.kind == UNKNOWN {
      return RpcError;
    }
    rpc := CommitAndSend(w, ops, Verdict(outcome, err, elapsed), bodyBudget);
  }

  method CommitAndSend(w: Writer, ghost ops: seq<Op>, verdict: Outcome, bodyBudget: nat) returns (rpc: Rpc)
    requires w.Valid() && !w.failed && Tracks(w, ops)
    modifies w, w.stream
    ensures ServerStream(w.stream.Offered(), ops, verdict, w.size)
    ensures w.stream.broken.None? ==> (rpc == RpcError <==>
              || (Responds(ops) && !w.fits(MetaChunk(StatusCode(ops), SentHeaders(ops))))
              || FinalOf(ops, verdict, w.size, bodyBudget, w.fits).None?)
    ensures rpc == RpcOk ==> EndsWith(w.stream, FinalOf(ops, verdict, w.size, bodyBudget, w.fits))
    ensures w.stream.broken.Some? ==> rpc == RpcError && w.stream.fails(|w.stream.delivered|)
  {
    var ok := Commit(w, ops);
    if !ok {
      OpenIsServerStream(w.stream.Offered(), ops, verdict, w.size);
      return RpcError;
    }
    rpc := SendFinal(w, ops, verdict, bodyBudget);
  }

  lemma OpenIsServerStream(offered: seq<Chunk>, ops: seq<Op>, verdict: Outcome, size: nat)
    requires OpenStream(offered, ops, size)
    ensures ServerStream(offered, ops, verdict, size)
  {
  }

  lemma TailIs(carried: seq<byte>, tail: seq<byte>, ops: seq<Op>, size: nat)
    requires HoldsRest(carried, tail, ops, size)
    ensures tail == CompletionTail(ops, size)
  {
  }

  method SendFinal(w: Writer, ghost ops: seq<Op>, verdict: Outcome, bodyBudget: nat) returns (rpc: Rpc)
    requires w.stream.broken.None? && OpenStream(w.stream.delivered, ops, w.size)
    requires HoldsRest(Data(w.stream.delivered), w.completionTail, ops, w.size)
    requires Responds(ops) ==> w.stream.delivered != []
    modifies w.stream
    ensures ServerStream(w.stream.Offered(), ops, verdict, w.size)
    ensures w.stream.broken.None? ==> (rpc == RpcError <==> FinalOf(ops, verdict, w.size, bodyBudget, w.fits).None?)
    ensures rpc == RpcOk ==> EndsWith(w.stream, FinalOf(ops, verdict, w.size, bodyBudget, w.fits))
    ensures w.stream.broken.Some? ==> rpc == RpcError && w.stream.fails(|w.stream.delivered|)
  {
    TailIs(Data(w.stream.delivered), w.completionTail, ops, w.size);
    var chunk := CheckedFinal(ToWire(verdict), w.completionTail, bodyBudget, w.fits);
    if chunk.None? {
      OpenIsServerStream(w.stream.delivered, ops, verdict, w.size);
      return RpcError;
    }
    FinalClosesStream(w.stream.delivered, chunk.value, w.completionTail, ops, verdict, w.size);
    var ok := w.stream.Send(chunk.value);
    return if ok then RpcOk else RpcError;
  }
}
