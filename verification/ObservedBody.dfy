/** A traced response body, read to its end: the observer sees exactly what the caller consumed. */
module ObservedBody {
  import opened Bytes
  import opened SseAutomaton
  import opened EventObserver
  import SseParse

  function LastOr(events: seq<seq<byte>>): seq<byte> {
    if events == [] then [] else events[|events| - 1]
  }

  /** Reads of any sizes, the last one ending the stream. What the exchange retains is the last
      event of the stream's declarative parse, or nothing when it has none. */
  method ReadAll(pieces: seq<seq<byte>>, maxEventBytes: nat) returns (retained: seq<byte>)
    ensures retained == LastOr(SseParse.Parse(Flatten(pieces), maxEventBytes))
  {
    var slot := new EventSlot(maxEventBytes);
    var observer := new EventObserver(slot);
    var i := 0;
    while i < |pieces|
      invariant 0 <= i <= |pieces|
      invariant observer.Valid() && !observer.closed && observer.exchange == slot && !slot.closed
      invariant FeedAll(observer.State(), pieces[i..], maxEventBytes) == FeedAll(FRESH, pieces, maxEventBytes)
    {
      if |pieces[i]| > 0 {
        observer.Write(pieces[i]);
      }
      assert pieces[i..][1..] == pieces[i + 1..];
      i := i + 1;
    }
    observer.Finish();
    SseParse.ObserverParses(pieces, maxEventBytes);
    return slot.event;
  }
}
