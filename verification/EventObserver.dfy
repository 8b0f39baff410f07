/** The observer itself: buffers updated in place, a whole read handled per call. */
module EventObserver {
  import opened Bytes
  import opened SseAutomaton

  /** The part of an exchange that the observers write: the most recent payload. */
  class EventSlot {
    const maxEventBytes: nat
    var event: seq<byte>
    var closed: bool
    ghost var offered: seq<seq<byte>>  // every payload that passed the size guards

    ghost predicate Valid()
      reads this
    {
      event == if closed || offered == [] then [] else offered[|offered| - 1]
    }

    constructor (maxEventBytes: nat)
      ensures Valid() && !closed && offered == [] && this.maxEventBytes == maxEventBytes
    {
      this.maxEventBytes := maxEventBytes;
      event, closed, offered := [], false, [];
    }

    method ObserveEvent(data: seq<byte>)
      requires Valid()
      modifies this
      ensures Valid() && closed == old(closed)
      ensures offered == if Accepts(data, maxEventBytes) then old(offered) + [data] else old(offered)
    {
      if |data| == 0 {
        return;
      }
      if |data| > maxEventBytes {
        return;
      }
      if !closed {
        event := data;
      }
      offered := offered + [data];
    }

    method Release()
      modifies this
      ensures Valid() && closed && event == [] && offered == old(offered)
    {
      closed := true;
      event := [];
    }
  }

  class EventObserver {
    const exchange: EventSlot
    var closed: bool
    var line: seq<byte>
    var data: seq<byte>
    var skipLine: bool
    var skipEvent: bool
    var skipLF: bool

    ghost function State(): Obs
      reads this, exchange
    {
      Obs(line, data, skipLine, skipEvent, skipLF, exchange.offered)
    }

    ghost predicate Valid()
      reads this, exchange
    {
      exchange.Valid() && |line| <= exchange.maxEventBytes && |data| <= exchange.maxEventBytes
    }

    constructor (exchange: EventSlot)
      requires exchange.Valid()
      ensures Valid() && !closed && this.exchange == exchange
      ensures State() == FRESH.(events := exchange.offered)
    {
      this.exchange := exchange;
      closed, line, data, skipLine, skipEvent, skipLF := false, [], [], false, false, false;
    }

    /** One read of any length is exactly its bytes fed one at a time. */
    method Write(p: seq<byte>)
      requires Valid()
      modifies this, exchange
      ensures Valid() && closed == old(closed) && exchange.closed == old(exchange.closed)
      ensures State() == if closed then old(State()) else Feed(old(State()), p, exchange.maxEventBytes)
    {
      if closed {
        return;
      }
      ghost var was := State();
      ghost var max := exchange.maxEventBytes;
      var rest := p;
      while |rest| > 0
        invariant Valid() && !closed && exchange.closed == old(exchange.closed)
        invariant Feed(State(), rest, max) == Feed(was, p, max)
        decreases |rest|
      {
        rest := NextLine(rest);
      }
    }

    /** One round of the loop: swallow the LF of a CRLF, or take bytes up to the next terminator. */
    method NextLine(p: seq<byte>) returns (rest: seq<byte>)
      requires Valid() && p != []
      modifies this, exchange
      ensures Valid() && closed == old(closed) && exchange.closed == old(exchange.closed)
      ensures |rest| < |p|
      ensures Feed(State(), rest, exchange.maxEventBytes) == Feed(old(State()), p, exchange.maxEventBytes)
    {
      ghost var max := exchange.maxEventBytes;
      if skipLF {
        FeedAfterCR(State(), p, max);
        skipLF := false;
        if p[0] == LF {
          return p[1..];
        }
      }
      rest := UpToTerminator(p);
    }

    method UpToTerminator(p: seq<byte>) returns (rest: seq<byte>)
      requires Valid() && p != [] && !skipLF
      modifies this, exchange
      ensures Valid() && closed == old(closed) && exchange.closed == old(exchange.closed)
      ensures |rest| < |p|
      ensures Feed(State(), rest, exchange.maxEventBytes) == Feed(old(State()), p, exchange.maxEventBytes)
    {
      ghost var s, max := State(), exchange.maxEventBytes;
      var index := IndexTerminator(p);
      AppendChunk(p[..index]);
      if index == |p| {
        FeedChunk(s, p, max);
        assert p[..index] == p;
        return [];
      }
      EndLine(p[index]);
      FeedLine(s, p, index, max);
      return p[index + 1..];
    }

    method AppendChunk(chunk: seq<byte>)
      requires Valid()
      modifies this`line, this`skipLine, this`skipEvent
      ensures Valid() && State() == Append(old(State()), chunk, exchange.maxEventBytes)
    {
      if !skipLine {
        if |line| + |chunk| > exchange.maxEventBytes {
          line := [];
          skipLine := true;
          skipEvent := true;
        } else {
          line := line + chunk;
        }
      }
    }

    method EndLine(terminator: byte)
      requires Valid()
      modifies this, exchange
      ensures Valid() && closed == old(closed) && exchange.closed == old(exchange.closed)
      ensures State() == SseAutomaton.EndLine(old(State()), terminator, exchange.maxEventBytes)
    {
      if !skipLine {
        ConsumeLine(line);
      }
      line := [];
      skipLine := false;
      skipLF := terminator == CR;
    }

    method ConsumeLine(text: seq<byte>)
      requires Valid()
      modifies this`data, this`skipEvent, exchange
      ensures Valid() && exchange.closed == old(exchange.closed)
      ensures State() == SseAutomaton.ConsumeLine(old(State()), text, exchange.maxEventBytes)
    {
      if |text| == 0 {
        Flush();
        return;
      }
      if !IsDataLine(text) || skipEvent {
        return;
      }
      var payload := PayloadOf(text);
      if |data| + |payload| + 1 > exchange.maxEventBytes {
        data := [];
        skipEvent := true;
        return;
      }
      data := data + payload;
      data := data + [LF];
      assert old(data) + payload + [LF] == data;
    }

    method Flush()
      requires Valid()
      modifies this`data, this`skipEvent, exchange
      ensures Valid() && exchange.closed == old(exchange.closed)
      ensures State() == SseAutomaton.Flush(old(State()), exchange.maxEventBytes)
    {
      var payload := TrimLF(data);
      if !skipEvent && payload != DONE_MARK {
        exchange.ObserveEvent(payload);
      }
      data := [];
      skipEvent := false;
    }

    method Finish()
      requires Valid()
      modifies this, exchange
      ensures Valid() && closed == old(closed) && exchange.closed == old(exchange.closed)
      ensures State() == if closed then old(State()) else SseAutomaton.Finish(old(State()), exchange.maxEventBytes)
    {
      if closed {
        return;
      }
      if !skipLine && |line| > 0 {
        ConsumeLine(line);
      }
      line := [];
      Flush();
      line, data := [], [];
    }

    method Release()
      requires exchange.Valid()
      modifies this
      ensures Valid() && closed && line == [] && data == []
    {
      closed := true;
      line, data := [], [];
    }
  }

  /** The first CR or LF, or the length when there is none. */
  method IndexTerminator(p: seq<byte>) returns (index: nat)
    ensures index <= |p| && NoTerminator(p[..index])
    ensures index < |p| ==> IsTerminator(p[index])
  {
    index := 0;
    while index < |p| && !IsTerminator(p[index])
      invariant index <= |p| && NoTerminator(p[..index])
    {
      index := index + 1;
    }
  }
}
