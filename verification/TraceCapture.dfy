/** The request trace's data: bounded body buffers, the eviction list, and the diagnostic snapshot. */
module TraceCapture {
  import opened Bytes

  /** A buffer that remembers at most `maxBodyBytes` of what is written, and how much that was. */
  class BodyBuffer {
    const maxBodyBytes: nat
    var data: seq<byte>
    var size: nat
    var closed: bool
    ghost var written: seq<byte>  // everything written while it was open

    ghost predicate Valid()
      reads this
    {
      if closed then data == [] && size == 0
      else size == |written| && data == written[..Min(|written|, maxBodyBytes)]
    }

    constructor (maxBodyBytes: nat)
      ensures Valid() && !closed && written == [] && this.maxBodyBytes == maxBodyBytes
    {
      this.maxBodyBytes := maxBodyBytes;
      data, size, closed, written := [], 0, false, [];
    }

    method Write(p: seq<byte>)
      requires Valid()
      modifies this`data, this`size, this`written
      ensures Valid() && written == if closed then old(written) else old(written) + p
    {
      if closed {
        return;
      }
      size := size + |p|;
      var available := maxBodyBytes - |data|;
      if available > 0 {
        data := data + p[..Min(available, |p|)];
      }
      written := written + p;
    }

    method Release()
      modifies this`data, this`size, this`closed
      ensures Valid() && closed
    {
      data, size, closed := [], 0, true;
    }

    /** As much of the body as may be kept, and the size of all of it: so the copy is the whole body
        exactly when the body is small enough. */
    method Snapshot() returns (copy: seq<byte>, total: nat)
      requires Valid()
      ensures !closed ==> copy == written[..Min(|written|, maxBodyBytes)] && total == |written|
      ensures !closed ==> (copy == written <==> |written| <= maxBodyBytes)
      ensures closed ==> copy == [] && total == 0
    {
      return data, size;
    }
  }

  // ---- Reading a request body for the record ----

  /** A reader over some content that may fail after a number of bytes, perhaps with the error that
      says no more than that the content ended too early. */
  class Reader {
    const content: seq<byte>
    const failsAfter: Option<nat>
    const unexpectedEOF: bool
    var pos: nat

    ghost predicate Valid()
      reads this
    {
      pos <= |content| && (failsAfter.Some? ==> pos <= failsAfter.value <= |content|)
    }

    constructor (content: seq<byte>, failsAfter: Option<nat>, unexpectedEOF: bool)
      requires failsAfter.Some? ==> failsAfter.value <= |content|
      ensures Valid() && pos == 0
      ensures this.content == content && this.failsAfter == failsAfter && this.unexpectedEOF == unexpectedEOF
    {
      this.content, this.failsAfter, this.unexpectedEOF, pos := content, failsAfter, unexpectedEOF, 0;
    }

    /** At most `n` bytes, fewer only at the end; an error if the reader fails before that. */
    method Take(n: nat) returns (bytes: seq<byte>, ok: bool)
      requires Valid()
      modifies this
      ensures Valid() && pos == old(pos) + |bytes| && bytes == content[old(pos)..pos]
      ensures ok <==> !(failsAfter.Some? && failsAfter.value < old(pos) + n)
      ensures ok ==> |bytes| == Min(n, |content| - old(pos))
      ensures !ok ==> pos == failsAfter.value
    {
      var end := if failsAfter.Some? then failsAfter.value else |content|;
      var k := Min(n, end - pos);
      bytes := content[pos..pos + k];
      ok := failsAfter.None? || k == n;
      pos := pos + k;
    }
  }

  /** The one failure that is taken for the end of the body: within a plausible declared length, and
      with the error that a short read would give. */
  predicate PassesForEnd(failsAfter: Option<nat>, unexpectedEOF: bool, size: int, maxBodyBytes: nat) {
    unexpectedEOF && 0 < size <= maxBodyBytes && failsAfter.Some? && failsAfter.value <= size
  }

  /** The first bytes of a body, one more than may be kept so that an oversize body shows. Apart from
      the failure that passes for an end, the declared length never matters to a successful result. */
  method ReadRequestSnapshot(reader: Reader, size: int, maxBodyBytes: nat) returns (body: seq<byte>, ok: bool)
    requires reader.Valid() && reader.pos == 0
    modifies reader
    ensures ok <==> || reader.failsAfter.None? || reader.failsAfter.value > maxBodyBytes
                    || PassesForEnd(reader.failsAfter, reader.unexpectedEOF, size, maxBodyBytes)
    ensures PassesForEnd(reader.failsAfter, reader.unexpectedEOF, size, maxBodyBytes) ==>
              body == reader.content[..reader.failsAfter.value]
    ensures ok && !PassesForEnd(reader.failsAfter, reader.unexpectedEOF, size, maxBodyBytes) ==>
              body == reader.content[..Min(|reader.content|, maxBodyBytes + 1)]
    ensures !ok ==> body == if 0 < size <= maxBodyBytes && reader.failsAfter.value <= size then []
                            else reader.content[..reader.failsAfter.value]
  {
    if size <= 0 || size > maxBodyBytes {
      body, ok := reader.Take(maxBodyBytes + 1);
      return;
    }
    body, ok := reader.Take(size + 1);
    if !ok {
      return if reader.unexpectedEOF then body else [], reader.unexpectedEOF;
    }
    if |body| < size + 1 || |body| > maxBodyBytes {
      return;
    }
    var rest, more := reader.Take(maxBodyBytes + 1 - |body|);
    assert body + rest == reader.content[..reader.pos];
    return body + rest, more;
  }

  // ---- First plus latest ----

  /** The first exchange ever published and the latest others, `max` in all. */
  function FirstPlusLatest(published: seq<nat>, max: nat): seq<nat>
    requires max >= 2
  {
    if |published| <= max then published else [published[0]] + published[|published| - (max - 1)..]
  }

  /** The list in terms of what was published: the very first exchange, and the others from the end. */
  lemma FirstAndLatest(published: seq<nat>, max: nat, k: nat)
    requires max >= 2 && k < |FirstPlusLatest(published, max)|
    ensures var kept := FirstPlusLatest(published, max);
            && |kept| == Min(|published|, max) && kept[0] == published[0]
            && (k > 0 ==> kept[k] == published[|published| - |kept| + k])
  {
  }

  /** Dropping the second of a full list and appending keeps the first and the latest. */
  lemma RollOn(published: seq<nat>, e: nat, max: nat)
    requires |published| >= max >= 2
    ensures var was := FirstPlusLatest(published, max);
            && was[1] == published[|published| - (max - 1)]
            && FirstPlusLatest(published + [e], max) == [was[0]] + was[2..] + [e]
  {
  }

  /** The list of exchanges, shifted in place when it is full. */
  class ExchangeList {
    const slots: array<nat>
    var len: nat
    ghost var published: seq<nat>

    ghost predicate Valid()
      reads this, slots
    {
      && slots.Length >= 2 && len <= slots.Length
      && slots[..len] == FirstPlusLatest(published, slots.Length)
    }

    constructor (maxRequests: nat)
      requires maxRequests >= 2
      ensures Valid() && fresh(slots) && slots.Length == maxRequests && published == []
    {
      slots := new nat[maxRequests];
      len, published := 0, [];
    }

    /** Returns the exchange that had to make room, if any: never the first, always the oldest other. */
    method Publish(e: nat) returns (evicted: Option<nat>)
      requires Valid()
      modifies this`len, this`published, slots
      ensures Valid() && published == old(published) + [e]
      ensures evicted == if |old(published)| < slots.Length then None
                         else Some(old(published)[|old(published)| - (slots.Length - 1)])
    {
      if len < slots.Length {
        slots[len] := e;
        len := len + 1;
        published := published + [e];
        return None;
      }
      evicted := Some(slots[1]);
      Shift(e);
      published := published + [e];
      RollOn(old(published), e, slots.Length);
    }

    /** Drops the second entry, moves the later ones up and puts `e` last. */
    method Shift(e: nat)
      requires slots.Length >= 2
      modifies slots
      ensures slots[..] == [old(slots[0])] + old(slots[2..]) + [e]
    {
      var n := slots.Length;
      ghost var was := slots[..];
      for i := 1 to n - 1
        invariant slots[..i] == [was[0]] + was[2..i + 1]
        invariant slots[i..] == was[i..]
      {
        slots[i] := slots[i + 1];
      }
      slots[n - 1] := e;
      assert slots[..] == slots[..n - 1] + [e];
    }
  }

  // ---- The snapshot ----

  /** What one exchange holds when it is looked at: the recorded request body and declared size,
      the buffer of a body that is observed while it is sent, the response so far, the last event. */
  datatype View = View(body: seq<byte>, declared: int, sending: Option<(seq<byte>, nat)>,
                       response: Option<(seq<byte>, nat)>, event: seq<byte>)

  datatype Report = Report(body: seq<byte>, originalSize: int)

  function BodyOf(v: View): seq<byte> {
    if v.sending.Some? then v.sending.value.0 else v.body
  }

  function OriginalSize(v: View): int {
    var n := Max(v.declared, |v.body|);
    if v.sending.Some? then Max(n, v.sending.value.1) else n
  }

  predicate Complete(v: View) {
    OriginalSize(v) <= |BodyOf(v)|
  }

  /** The terminal request's error: its response if that is complete, else its last event. */
  function RawError(v: View): seq<byte> {
    if v.response.None? then v.event
    else if v.response.value.1 > |v.response.value.0| then []
    else v.response.value.0
  }

  /** What is put on record of a request whose replay gave `body`: an oversize body only leaves its
      size, and one that could not be replayed is observed while it is sent. */
  function RecordOf(body: seq<byte>, ok: bool, contentLength: int, maxBodyBytes: nat): View {
    var original := Max(contentLength, |body|);
    View(if !ok || |body| > maxBodyBytes then [] else body, original, if ok then None else Some(([], 0)), None, [])
  }

  /** A replayed request body is complete on record exactly when it is small enough to keep and no
      shorter than declared, and then it is the whole body. */
  lemma RecordedWholeOrIncomplete(content: seq<byte>, contentLength: int, maxBodyBytes: nat)
    ensures var v := RecordOf(content[..Min(|content|, maxBodyBytes + 1)], true, contentLength, maxBodyBytes);
            && (Complete(v) <==> |content| <= maxBodyBytes && contentLength <= |content|)
            && (Complete(v) ==> BodyOf(v) == content && OriginalSize(v) == |content|)
  {
    if |content| <= maxBodyBytes {
      assert content[..|content|] == content;
    }
  }

  /** A replay that broke off but passed for an end is complete on record exactly when it broke off
      at the declared length. */
  lemma EarlyEndIsIncomplete(content: seq<byte>, k: nat, size: nat, maxBodyBytes: nat)
    requires k <= |content| && PassesForEnd(Some(k), true, size, maxBodyBytes)
    ensures var v := RecordOf(content[..k], true, size, maxBodyBytes);
            (Complete(v) <==> k == size) && BodyOf(v) == content[..k]
  {
  }

  /** A body that cannot be replayed, observed while it is sent, after `k` of its bytes were read. A
      replay that failed may have given `first`. */
  function Observed(first: seq<byte>, content: seq<byte>, k: nat, contentLength: int, maxBodyBytes: nat): View
    requires k <= |content|
  {
    RecordOf(first, false, contentLength, maxBodyBytes).(sending := Some((content[..Min(k, maxBodyBytes)], k)))
  }

  /** Before any of the body is sent, that is what is put on record. */
  lemma ObservedFromNothing(first: seq<byte>, content: seq<byte>, contentLength: int, maxBodyBytes: nat)
    ensures RecordOf(first, false, contentLength, maxBodyBytes) ==
            Observed(first, content, 0, contentLength, maxBodyBytes)
  {
    assert content[..0] == [];
  }

  /** The size that an observed body is known to have before any of it is sent. */
  function KnownSize(first: seq<byte>, contentLength: int): nat {
    Max(contentLength, |first|)
  }

  /** An observed body counts as complete as soon as it reaches its known size. */
  lemma ObservedComplete(first: seq<byte>, content: seq<byte>, k: nat, contentLength: int, maxBodyBytes: nat)
    requires k <= |content|
    ensures var v := Observed(first, content, k, contentLength, maxBodyBytes);
            && (Complete(v) <==> k <= maxBodyBytes && KnownSize(first, contentLength) <= k)
            && (Complete(v) ==> BodyOf(v) == content[..k] && OriginalSize(v) == k)
  {
  }

  /** Some proper part of the body would count as complete. */
  ghost predicate PartPassesForWhole(first: seq<byte>, content: seq<byte>, contentLength: int, maxBodyBytes: nat) {
    exists k :: 0 <= k < |content| && Complete(Observed(first, content, k, contentLength, maxBodyBytes))
  }

  /** An interrupted observation can pass for a whole body exactly when the size known beforehand is
      short of the real one and small enough to keep. Without a declared length some part always
      can, if only the empty one. */
  lemma PartPassesIfUndeclared(first: seq<byte>, content: seq<byte>, contentLength: int, maxBodyBytes: nat)
    ensures var known := KnownSize(first, contentLength);
            PartPassesForWhole(first, content, contentLength, maxBodyBytes)
            <==> known < |content| && known <= maxBodyBytes
  {
    var known := KnownSize(first, contentLength);
    if known < |content| && known <= maxBodyBytes {
      ObservedComplete(first, content, known, contentLength, maxBodyBytes);
    }
    if PartPassesForWhole(first, content, contentLength, maxBodyBytes) {
      var k :| 0 <= k < |content| && Complete(Observed(first, content, k, contentLength, maxBodyBytes));
      ObservedComplete(first, content, k, contentLength, maxBodyBytes);
    }
  }

  function TotalBytes(reports: seq<Report>): nat {
    if reports == [] then 0 else |reports[0].body| + TotalBytes(reports[1..])
  }

  /** Bytes given out before request i is considered: to later requests, and to the error body. */
  function Spent(reports: seq<Report>, error: seq<byte>, i: nat): nat
    requires i < |reports|
  {
    TotalBytes(reports[i + 1..]) + if i + 1 < |reports| then |error| else 0
  }

  /** The greedy rule, request by request: a body is attached whole if it is complete and fits what
      later requests and the error body left over, and not at all otherwise. */
  ghost predicate Greedy(views: seq<View>, reports: seq<Report>, error: seq<byte>, budget: nat, i: nat)
    requires |views| == |reports| && i < |views|
  {
    && reports[i].originalSize == OriginalSize(views[i])
    && reports[i].body == (if Complete(views[i]) && |BodyOf(views[i])| + Spent(reports, error, i) <= budget
                           then BodyOf(views[i]) else [])
  }

  /** The error body is the terminal request's, attached whole if it fits beside that request's body. */
  predicate ErrorOf(last: View, report: Report, error: seq<byte>, budget: nat) {
    error == if |report.body| + |RawError(last)| <= budget then RawError(last) else []
  }

  /** The error body is the whole response read so far if it fits in its buffer, and nothing of it
      otherwise; the last event stands in only where no response was buffered. */
  lemma ErrorIsWhole(v: View, response: seq<byte>, maxBodyBytes: nat)
    ensures v.response == Some((response[..Min(|response|, maxBodyBytes)], |response|)) ==>
              RawError(v) == if |response| <= maxBodyBytes then response else []
    ensures v.response.None? ==> RawError(v) == v.event
  {
    if |response| <= maxBodyBytes {
      assert response[..|response|] == response;
    }
  }

  method Snapshot(views: seq<View>, maxBodyBytes: nat) returns (reports: seq<Report>, error: seq<byte>)
    ensures |reports| == |views|
    ensures forall i :: 0 <= i < |views| ==> Greedy(views, reports, error, maxBodyBytes, i)
    ensures TotalBytes(reports) + |error| <= maxBodyBytes
    ensures views == [] ==> error == []
    ensures views != [] ==> ErrorOf(views[|views| - 1], reports[|views| - 1], error, maxBodyBytes)
  {
    reports, error := [], [];
    var remaining := maxBodyBytes;
    var i := |views|;
    while i > 0
      invariant 0 <= i <= |views| && |reports| == |views| - i
      invariant remaining == maxBodyBytes - TotalBytes(reports) - |error| >= 0
      invariant i == |views| ==> error == []
      invariant forall k :: 0 <= k < |reports| ==> Greedy(views[i..], reports, error, maxBodyBytes, k)
      invariant i < |views| ==> ErrorOf(views[|views| - 1], reports[|reports| - 1], error, maxBodyBytes)
    {
      i := i - 1;
      var v := views[i];
      var original := OriginalSize(v);
      var report := Report([], original);
      if original <= |BodyOf(v)| && |BodyOf(v)| <= remaining {
        report := Report(BodyOf(v), original);
        remaining := remaining - |BodyOf(v)|;
      }
      ghost var later := reports;
      reports := [report] + reports;
      assert reports[1..] == later && views[i..][1..] == views[i + 1..];
      if i == |views| - 1 {
        var raw := RawError(v);
        if |raw| <= remaining {
          error := raw;
          remaining := remaining - |raw|;
        }
      }
      GreedyCons(views[i..], reports, error, maxBodyBytes, if i == |views| - 1 then [] else error);
    }
  }

  lemma GreedyCons(views: seq<View>, reports: seq<Report>, error: seq<byte>, budget: nat, before: seq<byte>)
    requires |views| == |reports| > 0
    requires |views| > 1 ==> before == error
    requires forall k :: 0 <= k < |reports| - 1 ==> Greedy(views[1..], reports[1..], before, budget, k)
    requires Greedy(views, reports, error, budget, 0)
    ensures forall k :: 0 <= k < |reports| ==> Greedy(views, reports, error, budget, k)
  {
    forall k | 1 <= k < |reports|
      ensures Greedy(views, reports, error, budget, k)
    {
      assert Greedy(views[1..], reports[1..], before, budget, k - 1);
      assert reports[1..][k..] == reports[k + 1..];
    }
  }

  /** A buffer never holds more than the size it reports. */
  predicate Measured(v: View) {
    v.sending.Some? ==> |v.sending.value.0| <= v.sending.value.1
  }

  /** A reader of the diagnostic can tell from the size whether a body is attached: the attached bytes
      are as many as the original size says exactly when the record counts as complete. */
  lemma SizeTellsAttached(views: seq<View>, reports: seq<Report>, error: seq<byte>, budget: nat, i: nat)
    requires |views| == |reports| && i < |views| && Greedy(views, reports, error, budget, i) && Measured(views[i])
    ensures |reports[i].body| == reports[i].originalSize ==> reports[i].body == BodyOf(views[i]) && Complete(views[i])
    ensures |reports[i].body| != reports[i].originalSize ==> reports[i].body == []
  {
    if reports[i].body == [] && reports[i].originalSize == 0 {
      assert |views[i].body| == 0 && |BodyOf(views[i])| == 0;
    }
  }

  /** Two looks at the same request, whatever its response is by then. */
  predicate SameRequest(v: View, w: View) {
    v.body == w.body && v.declared == w.declared && v.sending == w.sending
  }

  /** A replayed body is attached byte for byte or not at all. */
  lemma ReplayedIsWhole(views: seq<View>, reports: seq<Report>, error: seq<byte>, budget: nat, i: nat,
                        content: seq<byte>, contentLength: int, maxBodyBytes: nat)
    requires |views| == |reports| && i < |views| && Greedy(views, reports, error, budget, i)
    requires var replayed := content[..Min(|content|, maxBodyBytes + 1)];
             SameRequest(views[i], RecordOf(replayed, true, contentLength, maxBodyBytes))
    ensures reports[i].body == content || reports[i].body == []
  {
    RecordedWholeOrIncomplete(content, contentLength, maxBodyBytes);
  }

  /** So is a body observed while it is sent, wherever it was interrupted, unless a part of it could
      pass for the whole. */
  lemma ObservedIsWhole(views: seq<View>, reports: seq<Report>, error: seq<byte>, budget: nat, i: nat,
                        first: seq<byte>, content: seq<byte>, k: nat, contentLength: int, maxBodyBytes: nat)
    requires |views| == |reports| && i < |views| && Greedy(views, reports, error, budget, i) && k <= |content|
    requires SameRequest(views[i], Observed(first, content, k, contentLength, maxBodyBytes))
    requires !PartPassesForWhole(first, content, contentLength, maxBodyBytes)
    ensures reports[i].body == content || reports[i].body == []
  {
    ObservedComplete(first, content, k, contentLength, maxBodyBytes);
    if k == |content| {
      assert content[..k] == content;
    }
  }

  /** It does happen: a body of two bytes and no declared length, interrupted after the first, is
      attached as a whole body of one. */
  lemma PartIsAttached(view: View, reports: seq<Report>, error: seq<byte>, maxBodyBytes: nat)
    requires maxBodyBytes > 0 && |reports| == 1 && Greedy([view], reports, error, maxBodyBytes, 0)
    requires SameRequest(view, Observed([], [1, 2], 1, -1, maxBodyBytes))
    ensures reports[0] == Report([1], 1)
  {
    assert [1, 2][..1] == [1];
  }
}
