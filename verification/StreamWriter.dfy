/** The plugin side's response writer: chunking, the completion tail, and sticky failures. */
module StreamWriter {
  import opened Bytes
  import opened Outcomes
  import opened StreamChunks

  /**
   * The transport. A Send may fail whenever `fails` says so, and then the chunk may still have
   * reached the peer: it is kept as `broken`. Sending again after that is an error of the caller.
   */
  class Stream {
    const fails: nat -> bool
    var delivered: seq<Chunk>
    var broken: Option<Chunk>

    constructor (fails: nat -> bool)
      ensures delivered == [] && broken == None && this.fails == fails
    {
      this.fails := fails;
      delivered, broken := [], None;
    }

    method Send(chunk: Chunk) returns (ok: bool)
      requires broken.None?
      modifies this
      ensures ok == !fails(|old(delivered)|)
      ensures if ok then delivered == old(delivered) + [chunk] && broken.None?
              else delivered == old(delivered) && broken.Some? && broken.value == chunk
    {
      ok := !fails(|delivered|);
      if ok {
        delivered := delivered + [chunk];
      } else {
        broken := Some(chunk);
      }
    }

    /** All that the peer can have received at most. */
    ghost function Offered(): seq<Chunk>
      reads this
    {
      OfferedBy(delivered, broken)
    }
  }

  ghost function OfferedBy(delivered: seq<Chunk>, broken: Option<Chunk>): seq<Chunk> {
    if broken.Some? then delivered + [broken.value] else delivered
  }

  /** The data of a failed Send, if there was one. */
  ghost function LostBy(broken: Option<Chunk>): seq<byte> {
    if broken.Some? then broken.value.data else []
  }

  ghost predicate IsPiece(c: Chunk, size: nat) {
    c == DataChunk(c.data) && |c.data| <= size
  }

  /** The stream opens with the metadata chunk and goes on with plain data. */
  ghost predicate Framed(chunks: seq<Chunk>, meta: Chunk, size: nat) {
    if chunks == [] then true
    else if |chunks| == 1 then chunks[0] == meta
    else IsPiece(chunks[|chunks| - 1], size) && Framed(chunks[..|chunks| - 1], meta, size)
  }

  lemma {:induction false} FramedAppend(chunks: seq<Chunk>, c: Chunk, meta: Chunk, size: nat)
    requires Framed(chunks, meta, size)
    requires if chunks == [] then c == meta else IsPiece(c, size)
    ensures Framed(chunks + [c], meta, size)
  {
    assert (chunks + [c])[..|chunks|] == chunks;
  }

  lemma {:induction false} FramedMeans(chunks: seq<Chunk>, meta: Chunk, size: nat)
    requires Framed(chunks, meta, size)
    ensures chunks != [] ==> chunks[0] == meta
    ensures forall i :: 1 <= i < |chunks| ==> IsPiece(chunks[i], size)
    decreases |chunks|
  {
    if |chunks| > 1 {
      FramedMeans(chunks[..|chunks| - 1], meta, size);
    }
  }

  lemma SliceOfSuffix(s: seq<byte>, a: nat, i: nat, j: nat)
    requires i <= j <= |s| - a
    ensures s[a..][i..j] == s[a + i..a + j]
  {
  }

  lemma SuffixOfSuffix(s: seq<byte>, a: nat, i: nat)
    requires a + i <= |s|
    ensures s[a..][i..] == s[a + i..]
  {
  }

  /** Data in plain chunks, each as large as may be. */
  function Cut(data: seq<byte>, size: nat): seq<Chunk>
    requires size > 0
    decreases |data|
  {
    if data == [] then []
    else
      var n := Min(size, |data|);
      [DataChunk(data[..n])] + Cut(data[n..], size)
  }

  lemma {:induction false} CutOne(data: seq<byte>, n: nat, upto: nat, size: nat)
    requires size > 0 && n < upto <= |data|
    ensures var end := if n + size > upto then upto else n + size;
            Cut(data[n..upto], size) == [DataChunk(data[n..end])] + Cut(data[end..upto], size)
  {
    var part, k := data[n..upto], Min(size, upto - n);
    assert part[..k] == data[n..n + k] && part[k..] == data[n + k..upto];
  }

  /** With the chunks of the data from `n` on, the stream will have had all chunks of the data. */
  ghost predicate SentSoFar(delivered: seq<Chunk>, was: seq<Chunk>, data: seq<byte>, n: nat, upto: nat, size: nat)
    requires size > 0
  {
    n <= upto <= |data| && delivered + Cut(data[n..upto], size) == was + Cut(data[..upto], size)
  }

  lemma {:induction false} SendBegins(was: seq<Chunk>, data: seq<byte>, upto: nat, size: nat)
    requires size > 0 && upto <= |data|
    ensures SentSoFar(was, was, data, 0, upto, size)
  {
    assert data[0..upto] == data[..upto];
  }

  lemma {:induction false} SendGoesOn(delivered: seq<Chunk>, was: seq<Chunk>, data: seq<byte>, n: nat, end: nat,
                                      upto: nat, size: nat)
    requires size > 0 && SentSoFar(delivered, was, data, n, upto, size) && n < upto
    requires end == if n + size > upto then upto else n + size
    ensures SentSoFar(delivered + [DataChunk(data[n..end])], was, data, end, upto, size)
  {
    CutOne(data, n, upto, size);
    assert delivered + ([DataChunk(data[n..end])] + Cut(data[end..upto], size))
        == delivered + [DataChunk(data[n..end])] + Cut(data[end..upto], size);
  }

  lemma {:induction false} SendEnds(delivered: seq<Chunk>, was: seq<Chunk>, data: seq<byte>, upto: nat, size: nat)
    requires size > 0 && SentSoFar(delivered, was, data, upto, upto, size)
    ensures delivered == was + Cut(data[..upto], size)
  {
    assert data[upto..upto] == [];
    assert delivered + [] == delivered;
  }

  lemma NothingInFront(a: seq<byte>, b: seq<byte>)
    requires a == []
    ensures a + b == b
  {
  }

  lemma {:induction false} CutNone(size: nat)
    requires size > 0
    ensures Cut([], size) == []
  {
  }

  /** The chunks of one ordinary Write; an empty one sends an empty chunk. */
  function ChunksNow(data: seq<byte>, size: nat): seq<Chunk>
    requires size > 0
  {
    if data == [] then [DataChunk([])] else Cut(data, size)
  }

  /** The chunks of one Write during completion: what overflows, first of the old tail, then of the data. */
  function ChunksSpilled(tail: seq<byte>, data: seq<byte>, size: nat): seq<Chunk>
    requires size > 0 && |tail| <= size
  {
    var excess := Max(0, |tail| + |data| - size);
    var k := Min(excess, |tail|);
    (if k == 0 then [] else [DataChunk(tail[..k])]) + Cut(data[..excess - k], size)
  }

  lemma {:induction false} SpilledIs(was: seq<Chunk>, tail: seq<byte>, data: seq<byte>, size: nat, k: nat,
                                     sendBytes: nat)
    requires size > 0 && |tail| <= size && k == Min(Max(0, |tail| + |data| - size), |tail|)
    requires sendBytes == Max(0, |tail| + |data| - size) - k
    ensures k == 0 ==> was + Cut(data[..sendBytes], size) == was + ChunksSpilled(tail, data, size)
    ensures k > 0 ==>
              was + [DataChunk(tail[..k])] + Cut(data[..sendBytes], size) == was + ChunksSpilled(tail, data, size)
  {
    assert [] + Cut(data[..sendBytes], size) == Cut(data[..sendBytes], size);
  }

  /** The first bytes of the tail are the next ones of the requested bytes. */
  lemma TailPiece(tail: seq<byte>, data: seq<byte>, requested: seq<byte>, carried: nat, k: nat)
    requires k <= |tail| && carried + |tail| + |data| == |requested| && tail + data == requested[carried..]
    ensures tail[..k] == requested[carried..carried + k]
    ensures tail[k..] + data == requested[carried + k..]
  {
    assert tail[..k] == (tail + data)[..k];
    assert tail[k..] + data == (tail + data)[k..];
    SliceOfSuffix(requested, carried, 0, k);
    SuffixOfSuffix(requested, carried, k);
  }

  // ---- What is on the wire, as values ----

  /** The wire carries a prefix of the requested bytes, what a failed Send may have added still makes
      a prefix, and once there are completion bytes it is a strict one. */
  ghost predicate WireOk(delivered: seq<Chunk>, broken: Option<Chunk>, requested: seq<byte>, carried: nat,
                         mark: Option<nat>, meta: Chunk, size: nat)
  {
    && Framed(OfferedBy(delivered, broken), meta, size)
    && Data(delivered) <= requested && carried == |Data(delivered)|
    && carried + |LostBy(broken)| <= |requested|
    && LostBy(broken) == requested[carried..carried + |LostBy(broken)|]
    && (mark.Some? ==> mark.value <= |requested|)
    && (mark.Some? && mark.value < |requested| ==> carried + |LostBy(broken)| < |requested|)
  }

  /** Between Writes: everything accepted is either on the wire or in the tail, which holds the last
      bytes written since completion began, at most `size` of them. A failure gives up the tail. */
  ghost predicate TailOk(failed: bool, tail: seq<byte>, requested: seq<byte>, carried: nat, accepted: nat,
                         mark: Option<nat>, size: nat)
    requires carried <= |requested|
  {
    && carried <= accepted <= |requested|
    && (failed ==> tail == [])
    && (!failed ==> accepted == |requested| && tail == requested[carried..])
    && (!failed ==> |tail| == if mark.Some? then Min(|requested| - mark.value, size) else 0)
  }

  /** Bytes asked for but not sent do not disturb the wire. */
  lemma WireRequest(delivered: seq<Chunk>, broken: Option<Chunk>, requested: seq<byte>, data: seq<byte>, carried: nat,
                    mark: Option<nat>, meta: Chunk, size: nat)
    requires WireOk(delivered, broken, requested, carried, mark, meta, size)
    ensures WireOk(delivered, broken, requested + data, carried, mark, meta, size)
  {
    var n := |LostBy(broken)|;
    assert (requested + data)[carried..carried + n] == requested[carried..carried + n];
  }

  /** The next piece of the requested bytes goes out, or may have: never the last ones of a completion. */
  lemma WirePiece(delivered: seq<Chunk>, requested: seq<byte>, carried: nat, piece: seq<byte>,
                  mark: Option<nat>, meta: Chunk, size: nat)
    requires WireOk(delivered, None, requested, carried, mark, meta, size) && delivered != []
    requires |piece| <= size && carried + |piece| <= |requested|
    requires piece == requested[carried..carried + |piece|]
    requires mark.Some? ==> carried + |piece| < |requested|
    ensures WireOk(delivered + [DataChunk(piece)], None, requested, carried + |piece|, mark, meta, size)
    ensures WireOk(delivered, Some(DataChunk(piece)), requested, carried, mark, meta, size)
  {
    DataAppend(delivered, DataChunk(piece));
    FramedAppend(delivered, DataChunk(piece), meta, size);
    assert Data(delivered) + piece == requested[..carried + |piece|];
  }

  lemma WireMeta(mark: Option<nat>, meta: Chunk, was: Chunk, size: nat)
    requires WireOk([], None, [], 0, mark, was, size) && meta.data == []
    ensures WireOk([], None, [], 0, mark, meta, size)
    ensures WireOk([meta], None, [], 0, mark, meta, size)
    ensures WireOk([], Some(meta), [], 0, mark, meta, size)
  {
    DataAppend([], meta);
    FramedAppend([], meta, meta, size);
    assert [] + [meta] == [meta];
    assert Data([]) == [];
  }

  /** Where a writer begins. */
  lemma NothingYet(meta: Chunk, size: nat)
    ensures WireOk([], None, [], 0, None, meta, size)
    ensures TailOk(false, [], [], 0, 0, None, size)
  {
    var none: seq<byte> := [];
    assert none[0..0] == [];
    assert none[0..] == [];
    assert Data([]) == [];
  }

  /**
   * A writer with the history of its Writes: `requested` is all bytes they were given, of which
   * the first `carried` went out in successful Sends, the first `accepted` were reported as taken,
   * and `mark` were there when completion began.
   */
  class Writer {
    const stream: Stream
    const size: nat            // streamChunkSize
    const fits: Chunk -> bool  // the response budget check
    var headers: Headers
    var code: int
    var wroteHeader: bool
    var sent: bool
    var completing: bool
    var completionTail: seq<byte>
    var failed: bool
    ghost var requested: seq<byte>
    ghost var carried: nat
    ghost var accepted: nat
    ghost var mark: Option<nat>
    ghost var meta: Chunk

    /** What holds at all times, even in the middle of a Write. */
    ghost predicate Core()
      reads this, stream
    {
      && size > 0
      && completing == mark.Some?
      && (stream.broken.Some? ==> failed && stream.fails(|stream.delivered|))
      && (sent && stream.broken.None? ==> (failed <==> !fits(meta)))
      && (sent ==> failed || stream.delivered != [])
      && (!sent ==> stream.delivered == [] && stream.broken.None? && requested == [] && !failed)
      && WireOk(stream.delivered, stream.broken, requested, carried, mark, meta, size)
    }

    ghost predicate Valid()
      reads this, stream
    {
      && Core()
      && carried <= |requested|
      && TailOk(failed, completionTail, requested, carried, accepted, mark, size)
    }

    constructor (stream: Stream, size: nat, fits: Chunk -> bool)
      requires size > 0 && stream.delivered == [] && stream.broken.None?
      ensures Valid() && this.stream == stream && this.size == size && this.fits == fits
      ensures !sent && !wroteHeader && !failed && mark.None? && code == 0 && headers == map[] && requested == []
      ensures !meta.done && meta.data == []
    {
      this.stream, this.size, this.fits := stream, size, fits;
      headers, code, wroteHeader, sent, completing, completionTail, failed := map[], 0, false, false, false, [], false;
      requested, carried, accepted, mark, meta := [], 0, 0, None, DataChunk([]);
      NothingYet(DataChunk([]), size);
    }

    /** What a plugin does to the map that Header() returns. */
    method TouchHeaders(op: Op)
      requires Valid()
      modifies this`headers
      ensures Valid() && headers == Touched(old(headers), op)
    {
      headers := Touched(headers, op);
    }

    method BeginStreamCompletion()
      requires Valid()
      modifies this`completing, this`mark
      ensures Valid()
      ensures mark == if old(mark).Some? then old(mark) else Some(|requested|)
    {
      if !completing {
        mark := Some(|requested|);
      }
      completing := true;
    }

    method WriteHeader(statusCode: int)
      requires Valid()
      modifies this`code, this`wroteHeader
      ensures Valid()
      ensures old(sent || wroteHeader) ==> code == old(code) && wroteHeader == old(wroteHeader)
      ensures !old(sent || wroteHeader) ==> code == statusCode && wroteHeader
    {
      if sent || wroteHeader {
        return;
      }
      code := statusCode;
      wroteHeader := true;
    }

    /** The metadata chunk, at most once; a failure to send it is final like any other. */
    method FlushMeta() returns (ok: bool)
      requires Valid()
      modifies this`sent, this`failed, this`meta, this`completionTail, stream
      ensures Valid() && sent && ok == !failed
      ensures old(sent) ==> unchanged(stream) && meta == old(meta) && failed == old(failed)
      ensures old(failed) ==> failed && unchanged(stream)
      ensures !old(sent) ==> meta == MetaChunk(code, headers)
    {
      if failed {
        return false;
      }
      if sent {
        return true;
      }
      ok := SendMeta();
    }

    method SendMeta() returns (ok: bool)
      requires Valid() && !sent
      modifies this`sent, this`failed, this`meta, this`completionTail, stream
      ensures Valid() && sent && ok == !failed && meta == MetaChunk(code, headers)
    {
      var chunk := MetaChunk(code, headers);
      WireMeta(mark, chunk, meta, size);
      sent := true;
      meta := chunk;
      if !fits(chunk) {
        Fail();
        return false;
      }
      ok := stream.Send(chunk);
      if !ok {
        Fail();
      }
    }

    method Fail()
      modifies this`failed, this`completionTail
      ensures failed && completionTail == []
    {
      failed := true;
      completionTail := [];
    }

    /** Send the next piece of the requested bytes, but never the last ones during completion. */
    method SendPiece(piece: seq<byte>) returns (ok: bool)
      requires Core() && sent && !failed && |piece| <= size
      requires carried + |piece| <= |requested| && piece == requested[carried..carried + |piece|]
      requires mark.Some? ==> carried + |piece| < |requested|
      modifies this`failed, this`completionTail, this`carried, stream
      ensures Core() && ok == !failed
      ensures ok ==> carried == old(carried) + |piece| && completionTail == old(completionTail)
      ensures ok ==> stream.delivered == old(stream.delivered) + [DataChunk(piece)]
      ensures !ok ==> carried == old(carried) && completionTail == []
    {
      WirePiece(stream.delivered, requested, carried, piece, mark, meta, size);
      ok := stream.Send(DataChunk(piece));
      if ok {
        carried := carried + |piece|;
      } else {
        Fail();
      }
    }

    /** Send the next piece of the data, as large as may be; `start` is where the data lies in the
        requested bytes. */
    method SendNext(data: seq<byte>, n: nat, upto: nat, ghost start: nat) returns (end: nat, ok: bool)
      requires Core() && sent && !failed && n < upto <= |data|
      requires start + |data| == |requested| && data == requested[start..] && carried == start + n
      requires mark.Some? ==> upto < |data|
      modifies this`failed, this`completionTail, this`carried, stream
      ensures Core() && ok == !failed
      ensures end == if n + size > upto then upto else n + size
      ensures ok ==> carried == start + end && completionTail == old(completionTail)
      ensures ok ==> stream.delivered == old(stream.delivered) + [DataChunk(data[n..end])]
      ensures !ok ==> carried == start + n && completionTail == []
    {
      end := if n + size > upto then upto else n + size;
      SliceOfSuffix(requested, start, n, end);
      ok := SendPiece(data[n..end]);
    }

    /** The sending loop; `n` is how many bytes went out. */
    method SendAll(data: seq<byte>, upto: nat) returns (n: nat, ok: bool)
      requires Core() && sent && !failed && 0 < upto <= |data|
      requires carried + |data| == |requested| && data == requested[carried..]
      requires mark.Some? ==> upto < |data|
      modifies this`failed, this`completionTail, this`carried, stream
      ensures Core() && ok == !failed
      ensures n <= upto && carried == old(carried) + n
      ensures ok ==> n == upto && completionTail == old(completionTail)
      ensures ok ==> stream.delivered == old(stream.delivered) + Cut(data[..upto], size)
      ensures !ok ==> completionTail == []
    {
      n := 0;
      ghost var was, start := stream.delivered, carried;
      SendBegins(was, data, upto, size);
      while n < upto
        invariant 0 <= n <= upto
        invariant Core() && !failed && carried == start + n && completionTail == old(completionTail)
        invariant SentSoFar(stream.delivered, was, data, n, upto, size)
      {
        SendGoesOn(stream.delivered, was, data, n, if n + size > upto then upto else n + size, upto, size);
        var end;
        end, ok := SendNext(data, n, upto, start);
        if !ok {
          return n, false;
        }
        n := end;
      }
      SendEnds(stream.delivered, was, data, upto, size);
      return n, true;
    }

    /** Send the first `upto` bytes of the data, in pieces of at most `size`; `n` is how many went out. */
    method SendData(data: seq<byte>, upto: nat) returns (n: nat, ok: bool)
      requires Core() && sent && !failed && upto <= |data|
      requires upto > 0 ==> carried + |data| == |requested| && data == requested[carried..]
      requires upto > 0 && mark.Some? ==> upto < |data|
      modifies this`failed, this`completionTail, this`carried, stream
      ensures Core() && ok == !failed
      ensures n <= upto && carried == old(carried) + n
      ensures ok ==> n == upto && completionTail == old(completionTail)
      ensures ok ==> stream.delivered == old(stream.delivered) + Cut(data[..upto], size)
      ensures !ok ==> completionTail == []
      ensures ok && upto > 0 ==> data[upto..] == requested[carried..]
    {
      if upto == 0 {
        CutNone(size);
        return 0, true;
      }
      SuffixOfSuffix(requested, carried, upto);
      n, ok := SendAll(data, upto);
    }

    /** The Write a plugin calls. A complete one took all its bytes; a failed one counts exactly
        the bytes of this call that were carried; after a failure nothing is taken or sent. */
    method Write(data: seq<byte>) returns (n: nat, ok: bool)
      requires Valid()
      modifies this`sent, this`failed, this`meta, this`completionTail
      modifies this`carried, this`accepted, this`requested, stream
      ensures Valid() && sent && ok == !failed
      ensures requested == old(requested) + data
      ensures n <= |data| && accepted == old(accepted) + n
      ensures ok ==> n == |data|
      ensures !ok ==> carried == old(accepted) + n || (n == 0 && carried < old(accepted))
      ensures old(sent) ==> meta == old(meta)
      ensures !old(sent) ==> meta == MetaChunk(code, headers)
      ensures old(failed) ==> failed && unchanged(stream)
    {
      var _ := FlushMeta();
      n, ok := WriteBody(data);
    }

    /** The Write once the metadata chunk was tried. */
    method WriteBody(data: seq<byte>) returns (n: nat, ok: bool)
      requires Valid() && sent
      modifies this`failed, this`completionTail, this`carried, this`accepted, this`requested, stream
      ensures Valid() && ok == !failed
      ensures requested == old(requested) + data
      ensures n <= |data| && accepted == old(accepted) + n
      ensures ok ==> n == |data|
      ensures !ok ==> carried == old(accepted) + n || (n == 0 && carried < old(accepted))
      ensures old(failed) ==> failed && unchanged(stream)
    {
      Request(data);
      if failed {
        return 0, false;
      }
      n, ok := SendOrHold(data);
    }

    /** In the middle of a Write: its bytes are on record, and none of them is sent yet. */
    ghost predicate Midway(data: seq<byte>)
      reads this, stream
    {
      && Core() && sent && !failed
      && carried + |completionTail| == accepted && accepted + |data| == |requested|
      && completionTail + data == requested[carried..]
      && (mark.Some? ==> mark.value <= accepted)
      && |completionTail| == if mark.Some? then Min(accepted - mark.value, size) else 0
    }

    method SendOrHold(data: seq<byte>) returns (n: nat, ok: bool)
      requires Midway(data)
      modifies this`failed, this`completionTail, this`carried, this`accepted, stream
      ensures Valid() && ok == !failed
      ensures n <= |data| && accepted == old(accepted) + n
      ensures ok ==> n == |data|
      ensures !ok ==> carried == old(accepted) + n || (n == 0 && carried < old(accepted))
    {
      if completing {
        n, ok := WriteCompletion(data);
      } else {
        n, ok := WriteNow(data);
      }
    }

    /** The bytes of a Write are on record before any of them is sent. */
    ghost method Request(data: seq<byte>)
      requires Valid() && sent
      modifies this`requested
      ensures requested == old(requested) + data && (failed ==> Valid())
      ensures !failed ==> Midway(data)
    {
      WireRequest(stream.delivered, stream.broken, requested, data, carried, mark, meta, size);
      requested := requested + data;
    }

    /** Ordinary bytes go out at once; an empty Write sends an empty chunk. */
    method WriteNow(data: seq<byte>) returns (n: nat, ok: bool)
      requires Midway(data) && !completing
      modifies this`failed, this`completionTail, this`carried, this`accepted, stream
      ensures Valid() && ok == !failed
      ensures ok ==> stream.delivered == old(stream.delivered) + ChunksNow(data, size)
      ensures n <= |data| && accepted == old(accepted) + n
      ensures ok ==> n == |data|
      ensures !ok ==> carried == old(accepted) + n || (n == 0 && carried < old(accepted))
    {
      NothingInFront(completionTail, data);
      if |data| == 0 {
        ok := SendPiece(data);
        return 0, ok;
      }
      assert data[..|data|] == data;
      n, ok := SendData(data, |data|);
      accepted := accepted + n;
    }

    /** During completion the last `size` bytes are always held back, and only what overflows is
        sent: first from the old tail, then from the new data. */
    method WriteCompletion(data: seq<byte>) returns (n: nat, ok: bool)
      requires Midway(data) && completing
      modifies this`failed, this`completionTail, this`carried, this`accepted, stream
      ensures Valid() && ok == !failed
      ensures ok ==> stream.delivered == old(stream.delivered) + ChunksSpilled(old(completionTail), data, size)
      ensures n <= |data| && accepted == old(accepted) + n
      ensures ok ==> n == |data|
      ensures !ok ==> carried == old(accepted) + n || (n == 0 && carried < old(accepted))
    {
      var sendBytes := Max(0, |completionTail| + |data| - size);
      var k := Min(sendBytes, |completionTail|);
      if k > 0 {
        ok := SpillTail(k, data);
        if !ok {
          return 0, false;
        }
        sendBytes := sendBytes - k;
      }
      SpilledIs(old(stream.delivered), old(completionTail), data, size, k, sendBytes);
      n, ok := SpillData(sendBytes, data);
    }

    /** Send the first bytes of the new data, which only happens with an empty tail, and keep the rest. */
    method SpillData(sendBytes: nat, data: seq<byte>) returns (n: nat, ok: bool)
      requires Core() && sent && !failed && completing && sendBytes <= |data|
      requires sendBytes > 0 ==> completionTail == [] && sendBytes == |data| - size
      requires carried + |completionTail| + |data| == |requested| && accepted + |data| == |requested|
      requires carried <= accepted && completionTail + data == requested[carried..]
      requires |completionTail| + |data| - sendBytes == Min(|requested| - mark.value, size)
      modifies this`failed, this`completionTail, this`carried, this`accepted, stream
      ensures Valid() && ok == !failed
      ensures n <= |data| && accepted == old(accepted) + n
      ensures ok ==> n == |data|
      ensures ok ==> stream.delivered == old(stream.delivered) + Cut(data[..sendBytes], size)
      ensures !ok ==> carried == old(accepted) + n
    {
      if sendBytes == 0 {
        CutNone(size);
        KeepRest(data, |data|);
        return |data|, true;
      }
      n, ok := SpillFirst(sendBytes, data);
    }

    method SpillFirst(sendBytes: nat, data: seq<byte>) returns (n: nat, ok: bool)
      requires Core() && sent && !failed && completing && completionTail == [] && 0 < sendBytes == |data| - size
      requires carried + |data| == |requested| && accepted == carried && data == requested[carried..]
      requires size == Min(|requested| - mark.value, size)
      modifies this`failed, this`completionTail, this`carried, this`accepted, stream
      ensures Valid() && ok == !failed
      ensures n <= |data| && accepted == old(accepted) + n
      ensures ok ==> n == |data|
      ensures ok ==> stream.delivered == old(stream.delivered) + Cut(data[..sendBytes], size)
      ensures !ok ==> carried == old(accepted) + n
    {
      n, ok := SendData(data, sendBytes);
      if !ok {
        accepted := accepted + n;
        return n, false;
      }
      NothingInFront(completionTail, data[sendBytes..]);
      KeepRest(data[sendBytes..], |data|);
      return |data|, true;
    }

    /** Send the first `k` bytes of the tail. */
    method SpillTail(k: nat, ghost data: seq<byte>) returns (ok: bool)
      requires Core() && sent && !failed && 0 < k <= |completionTail| <= size
      requires completionTail + data == requested[carried..]
      requires carried + |completionTail| + |data| == |requested| && k < |completionTail| + |data|
      modifies this`failed, this`completionTail, this`carried, stream
      ensures Core() && ok == !failed
      ensures ok ==> carried == old(carried) + k && |completionTail| == |old(completionTail)| - k
      ensures ok ==> completionTail + data == requested[carried..]
      ensures ok ==> stream.delivered == old(stream.delivered) + [DataChunk(old(completionTail)[..k])]
      ensures !ok ==> carried == old(carried) && completionTail == []
    {
      TailPiece(completionTail, data, requested, carried, k);
      ok := SendPiece(completionTail[..k]);
      if ok {
        completionTail := completionTail[k..];
      }
    }

    /** The bytes that did not overflow join the tail; the Write took `n` in all. */
    method KeepRest(rest: seq<byte>, ghost n: nat)
      requires Core() && sent && !failed && completing
      requires accepted + n == |requested| && carried + |completionTail| + |rest| == |requested|
      requires completionTail + rest == requested[carried..]
      requires |completionTail| + |rest| == Min(|requested| - mark.value, size)
      modifies this`completionTail, this`accepted
      ensures Valid() && accepted == old(accepted) + n
    {
      completionTail := completionTail + rest;
      accepted := accepted + n;
    }
  }
}
