/** The request trace collector under concurrency: recording, wrapping, body reads and Finish are
    interleaved freely. Every section guarded by a mutex is one step of the machine. */
module TraceLifecycle {
  import opened Bytes
  import opened TraceCapture

  datatype Kind = Sent | Response | Events

  /** Who has to release an open exchange: the collector's list, or a call that took it out. */
  datatype Holder = Held | With(call: nat)

  /** Where the only reference that can release a buffer is; Lost when there is none. */
  datatype Place = On(exchange: nat, kind: Kind) | Taken(call: nat) | Lost

  datatype Exchange = Exchange(closed: bool, holder: Holder, sent: Option<nat>, response: Option<nat>,
                               events: Option<nat>, event: seq<byte>)

  /** A body buffer or an event observer: what it retains, until it is released. */
  datatype Buffer = Buffer(closed: bool, data: seq<byte>, place: Place)

  /** What a call of record or Finish has yet to do. */
  datatype Call = Publishing(e: nat) | Finishing | Releasing(es: seq<nat>, bs: seq<nat>) | Done

  datatype Sys = Sys(closed: bool, list: seq<nat>, published: seq<nat>,
                     ex: map<nat, Exchange>, bufs: map<nat, Buffer>, calls: map<nat, Call>)

  const INIT := Sys(false, [], [], map[], map[], map[])

  datatype Label =
    | BeginRecord(t: nat, e: nat, sent: Option<nat>)
    | Publish(t: nat)
    | BeginFinish(t: nat)
    | Detach(t: nat)
    | Release(t: nat)
    | Wrap(e: nat, streaming: bool, b: nat)
    | Consume(b: nat, data: seq<byte>)
    | Observe(e: nat, data: seq<byte>)

  // ---- The steps ----

  function Get(x: Exchange, k: Kind): Option<nat> {
    match k
    case Sent => x.sent
    case Response => x.response
    case Events => x.events
  }

  function Attach(x: Exchange, k: Kind, b: nat): Exchange {
    match k
    case Sent => x.(sent := Some(b))
    case Response => x.(response := Some(b))
    case Events => x.(events := Some(b))
  }

  function Detached(x: Exchange, k: Kind): Exchange {
    match k
    case Sent => x.(sent := None)
    case Response => x.(response := None)
    case Events => x.(events := None)
  }

  function ToSeq(o: Option<nat>): seq<nat> {
    if o.Some? then [o.value] else []
  }

  function Attached(x: Exchange): seq<nat> {
    ToSeq(x.sent) + ToSeq(x.response) + ToSeq(x.events)
  }

  predicate Bare(x: Exchange) {
    x.sent.None? && x.response.None? && x.events.None? && x.event == []
  }

  function Cleared(x: Exchange): Exchange {
    Exchange(true, x.holder, None, None, None, [])
  }

  /** The first check of record, then the exchange it builds outside the lock. Identities are fresh. */
  function DoBeginRecord(s: Sys, t: nat, e: nat, sent: Option<nat>): Sys {
    if t in s.calls || e in s.ex || (sent.Some? && sent.value in s.bufs) then s
    else if s.closed then s.(calls := s.calls[t := Done])
    else s.(ex := s.ex[e := Exchange(false, With(t), sent, None, None, [])],
            bufs := if sent.Some? then s.bufs[sent.value := Buffer(false, [], On(e, Sent))] else s.bufs,
            calls := s.calls[t := Publishing(e)])
  }

  /** Once the collector is closed, a call of record returns at once and leaves nothing behind. */
  lemma RecordAfterFinish(s: Sys, t: nat, e: nat, sent: Option<nat>)
    requires s.closed && t !in s.calls && e !in s.ex && (sent.Some? ==> sent.value !in s.bufs)
    ensures DoBeginRecord(s, t, e, sent) == s.(calls := s.calls[t := Done])
  {
  }

  function Move(ex: map<nat, Exchange>, e: nat, h: Holder): map<nat, Exchange> {
    if e in ex then ex[e := ex[e].(holder := h)] else ex
  }

  /** The second check of record and the publication. */
  function DoPublish(s: Sys, t: nat, max: nat): Sys
    requires max >= 2
  {
    if t !in s.calls || !s.calls[t].Publishing? then s else
      var e := s.calls[t].e;
      if s.closed then s.(calls := s.calls[t := Releasing([e], [])])
      else if |s.list| < max then
        s.(list := s.list + [e], published := s.published + [e],
           ex := Move(s.ex, e, Held), calls := s.calls[t := Done])
      else
        var evicted := s.list[1];
        s.(list := [s.list[0]] + s.list[2..] + [e], published := s.published + [e],
           ex := Move(Move(s.ex, e, Held), evicted, With(t)), calls := s.calls[t := Releasing([evicted], [])])
  }

  function DoBeginFinish(s: Sys, t: nat): Sys {
    if t in s.calls then s else s.(calls := s.calls[t := Finishing])
  }

  function TakeOver(ex: map<nat, Exchange>, t: nat): map<nat, Exchange> {
    map e | e in ex :: if ex[e].holder == Held then ex[e].(holder := With(t)) else ex[e]
  }

  function DoDetach(s: Sys, t: nat): Sys {
    if t !in s.calls || !s.calls[t].Finishing? then s
    else s.(closed := true, list := [], ex := TakeOver(s.ex, t), calls := s.calls[t := Releasing(s.list, [])])
  }

  function Unplug(bufs: map<nat, Buffer>, e: nat, t: nat): map<nat, Buffer> {
    map b | b in bufs ::
      if bufs[b].place.On? && bufs[b].place.exchange == e then bufs[b].(place := Taken(t)) else bufs[b]
  }

  /** Releasing one exchange: detach its buffers under its lock, then release each of them. */
  function DoRelease(s: Sys, t: nat): Sys {
    if t !in s.calls || !s.calls[t].Releasing? then s else
      var c := s.calls[t];
      if c.bs != [] then
        s.(bufs := if c.bs[0] in s.bufs then s.bufs[c.bs[0] := Buffer(true, [], s.bufs[c.bs[0]].place)] else s.bufs,
           calls := s.calls[t := Releasing(c.es, c.bs[1..])])
      else if c.es != [] && c.es[0] in s.ex then
        var e := c.es[0];
        s.(ex := s.ex[e := Cleared(s.ex[e])], bufs := Unplug(s.bufs, e, t),
           calls := s.calls[t := Releasing(c.es[1..], Attached(s.ex[e]))])
      else s.(calls := s.calls[t := Done])
  }

  function KindOf(streaming: bool): Kind {
    if streaming then Events else Response
  }

  function Lose(bufs: map<nat, Buffer>, o: Option<nat>): map<nat, Buffer> {
    if o.Some? && o.value in bufs then bufs[o.value := bufs[o.value].(place := Lost)] else bufs
  }

  /** WrapResponse on an open exchange puts a fresh buffer or observer where one may have been. */
  function DoWrap(s: Sys, e: nat, k: Kind, b: nat): Sys {
    if e !in s.ex || s.ex[e].closed || b in s.bufs then s
    else s.(ex := s.ex[e := Attach(s.ex[e], k, b)],
            bufs := Lose(s.bufs, Get(s.ex[e], k))[b := Buffer(false, [], On(e, k))])
  }

  /** A read of an observed body leaves anything in its buffer, unless the buffer is released. */
  function DoConsume(s: Sys, b: nat, data: seq<byte>): Sys {
    if b !in s.bufs || s.bufs[b].closed then s else s.(bufs := s.bufs[b := s.bufs[b].(data := data)])
  }

  function DoObserve(s: Sys, e: nat, data: seq<byte>): Sys {
    if e !in s.ex || s.ex[e].closed then s else s.(ex := s.ex[e := s.ex[e].(event := data)])
  }

  /** WrapResponse attaches an event observer to a streaming response and a body buffer to any other, and
      leaves the other kind as it is. */
  lemma WrapAttaches(s: Sys, e: nat, streaming: bool, b: nat)
    requires e in s.ex && !s.ex[e].closed && b !in s.bufs
    ensures var r := DoWrap(s, e, KindOf(streaming), b);
            && b in r.bufs && r.bufs[b].data == [] && !r.bufs[b].closed
            && r.ex[e].events == (if streaming then Some(b) else s.ex[e].events)
            && r.ex[e].response == (if streaming then s.ex[e].response else Some(b))
            && r.ex[e].sent == s.ex[e].sent && r.ex[e].event == s.ex[e].event
  {
  }

  /** The latest event stays on an open exchange and none on a closed one; a read changes one open buffer. */
  lemma LatestStays(s: Sys, e: nat, b: nat, data: seq<byte>)
    ensures e in s.ex && !s.ex[e].closed ==> DoObserve(s, e, data).ex[e] == s.ex[e].(event := data)
    ensures e in s.ex && s.ex[e].closed ==> DoObserve(s, e, data) == s
    ensures b in s.bufs && !s.bufs[b].closed ==> DoConsume(s, b, data).bufs[b] == s.bufs[b].(data := data)
    ensures b in s.bufs && s.bufs[b].closed ==> DoConsume(s, b, data) == s
  {
  }

  function Step(s: Sys, l: Label, max: nat): Sys
    requires max >= 2
  {
    match l
    case BeginRecord(t, e, sent) => DoBeginRecord(s, t, e, sent)
    case Publish(t) => DoPublish(s, t, max)
    case BeginFinish(t) => DoBeginFinish(s, t)
    case Detach(t) => DoDetach(s, t)
    case Release(t) => DoRelease(s, t)
    case Wrap(e, streaming, b) => DoWrap(s, e, KindOf(streaming), b)
    case Consume(b, data) => DoConsume(s, b, data)
    case Observe(e, data) => DoObserve(s, e, data)
  }

  function Run(ls: seq<Label>, max: nat): Sys
    requires max >= 2
  {
    if ls == [] then INIT else Step(Run(ls[..|ls| - 1], max), ls[|ls| - 1], max)
  }

  // ---- What every step keeps ----

  function Pending(c: Call): seq<nat> {
    match c
    case Publishing(e) => [e]
    case Releasing(es, bs) => es
    case _ => []
  }

  function ToClose(c: Call): seq<nat> {
    if c.Releasing? then c.bs else []
  }

  ghost predicate ListOk(s: Sys, max: nat)
    requires max >= 2
  {
    && (s.closed ==> s.list == [])
    && (!s.closed ==> s.list == FirstPlusLatest(s.published, max))
  }

  /** The list holds open exchanges of its own, each once. */
  ghost predicate HeldOk(list: seq<nat>, ex: map<nat, Exchange>) {
    && (forall i :: 0 <= i < |list| ==> list[i] in ex && ex[list[i]].holder == Held && !ex[list[i]].closed)
    && (forall i, j :: 0 <= i < j < |list| ==> list[i] != list[j])
  }

  ghost predicate PendingOk(ex: map<nat, Exchange>, calls: map<nat, Call>) {
    forall t, e :: t in calls && e in Pending(calls[t]) ==>
      e in ex && ex[e].holder == With(t) && (calls[t].Publishing? ==> !ex[e].closed)
  }

  ghost predicate ExchangeOk(list: seq<nat>, ex: map<nat, Exchange>, calls: map<nat, Call>, e: nat)
    requires e in ex
  {
    if ex[e].closed then Bare(ex[e])
    else match ex[e].holder
      case Held => e in list
      case With(t) => t in calls && e in Pending(calls[t])
  }

  ghost predicate ExchangesOk(list: seq<nat>, ex: map<nat, Exchange>, calls: map<nat, Call>) {
    forall e :: e in ex ==> ExchangeOk(list, ex, calls, e)
  }

  ghost predicate BufferOk(ex: map<nat, Exchange>, bufs: map<nat, Buffer>, calls: map<nat, Call>, b: nat)
    requires b in bufs
  {
    if bufs[b].closed then bufs[b].data == [] && bufs[b].place.Taken?
    else match bufs[b].place
      case On(e, k) => e in ex && Get(ex[e], k) == Some(b)
      case Taken(t) => t in calls && b in ToClose(calls[t])
      case Lost => true
  }

  ghost predicate BuffersOk(ex: map<nat, Exchange>, bufs: map<nat, Buffer>, calls: map<nat, Call>) {
    forall b :: b in bufs ==> BufferOk(ex, bufs, calls, b)
  }

  ghost predicate SlotOk(o: Option<nat>, bufs: map<nat, Buffer>, e: nat, k: Kind) {
    o.Some? ==> o.value in bufs && bufs[o.value].place == On(e, k)
  }

  ghost predicate SlotsOk(ex: map<nat, Exchange>, bufs: map<nat, Buffer>) {
    forall e :: e in ex ==>
      && SlotOk(ex[e].sent, bufs, e, Sent)
      && SlotOk(ex[e].response, bufs, e, Response)
      && SlotOk(ex[e].events, bufs, e, Events)
  }

  ghost predicate TakenOk(bufs: map<nat, Buffer>, calls: map<nat, Call>) {
    forall t, b :: t in calls && b in ToClose(calls[t]) ==> b in bufs && bufs[b].place == Taken(t)
  }

  /** Every exchange has someone to release it. */
  ghost predicate Owned(list: seq<nat>, ex: map<nat, Exchange>, calls: map<nat, Call>) {
    HeldOk(list, ex) && PendingOk(ex, calls) && ExchangesOk(list, ex, calls)
  }

  /** Every buffer that is not lost has someone to release it. */
  ghost predicate Stored(ex: map<nat, Exchange>, bufs: map<nat, Buffer>, calls: map<nat, Call>) {
    BuffersOk(ex, bufs, calls) && SlotsOk(ex, bufs) && TakenOk(bufs, calls)
  }

  ghost predicate Inv(s: Sys, max: nat)
    requires max >= 2
  {
    ListOk(s, max) && Owned(s.list, s.ex, s.calls) && Stored(s.ex, s.bufs, s.calls)
  }

  // ---- Exchanges keep an owner ----

  lemma BeginRecordOwned(s: Sys, t: nat, e: nat, sent: Option<nat>)
    requires Owned(s.list, s.ex, s.calls)
    ensures var r := DoBeginRecord(s, t, e, sent); Owned(r.list, r.ex, r.calls)
  {
  }

  lemma AppendHeld(list: seq<nat>, ex: map<nat, Exchange>, e: nat)
    requires HeldOk(list, ex) && e in ex && !ex[e].closed && ex[e].holder != Held
    ensures HeldOk(list + [e], Move(ex, e, Held))
  {
  }

  lemma EvictHeld(list: seq<nat>, ex: map<nat, Exchange>, t: nat)
    requires HeldOk(list, ex) && |list| >= 2
    ensures HeldOk([list[0]] + list[2..], Move(ex, list[1], With(t)))
  {
    var rest := [list[0]] + list[2..];
    assert forall i :: 0 <= i < |rest| ==> rest[i] == list[if i == 0 then 0 else i + 1];
  }

  /** A call publishes its exchange, and may take another one out. */
  lemma PublishOwned(s: Sys, t: nat, max: nat)
    requires max >= 2 && Owned(s.list, s.ex, s.calls)
    ensures var r := DoPublish(s, t, max); Owned(r.list, r.ex, r.calls)
  {
    if t in s.calls && s.calls[t].Publishing? {
      var e := s.calls[t].e;
      assert e in Pending(s.calls[t]);
      if s.closed {
      } else if |s.list| < max {
        AppendHeld(s.list, s.ex, e);
      } else {
        EvictedOwned(s.list, s.ex, s.calls, t);
      }
    }
  }

  lemma EvictedOwned(list: seq<nat>, ex: map<nat, Exchange>, calls: map<nat, Call>, t: nat)
    requires Owned(list, ex, calls) && t in calls && calls[t].Publishing? && |list| >= 2
    ensures Owned([list[0]] + list[2..] + [calls[t].e], Move(Move(ex, calls[t].e, Held), list[1], With(t)),
                  calls[t := Releasing([list[1]], [])])
  {
    var e := calls[t].e;
    assert e in Pending(calls[t]);
    AppendHeld(list, ex, e);
    var ex1 := Move(ex, e, Held);
    EvictHeld(list + [e], ex1, t);
    assert [list[0]] + list[2..] + [e] == [(list + [e])[0]] + (list + [e])[2..];
    EvictedExchanges(list, ex, calls, t);
  }

  lemma EvictedExchanges(list: seq<nat>, ex: map<nat, Exchange>, calls: map<nat, Call>, t: nat)
    requires ExchangesOk(list, ex, calls) && t in calls && calls[t].Publishing? && |list| >= 2
    ensures ExchangesOk([list[0]] + list[2..] + [calls[t].e], Move(Move(ex, calls[t].e, Held), list[1], With(t)),
                        calls[t := Releasing([list[1]], [])])
  {
  }

  lemma DetachOwned(s: Sys, t: nat)
    requires Owned(s.list, s.ex, s.calls)
    ensures var r := DoDetach(s, t); Owned(r.list, r.ex, r.calls)
  {
  }

  /** A call that owes nothing, or no longer, changes no ownership. */
  lemma FreeCallOwned(list: seq<nat>, ex: map<nat, Exchange>, calls: map<nat, Call>, t: nat, c: Call)
    requires Owned(list, ex, calls) && (t in calls ==> Pending(calls[t]) == Pending(c))
    requires t !in calls ==> Pending(c) == []
    requires !c.Publishing?
    ensures Owned(list, ex, calls[t := c])
  {
  }

  lemma ClearedOwned(list: seq<nat>, ex: map<nat, Exchange>, calls: map<nat, Call>, t: nat, bs: seq<nat>)
    requires Owned(list, ex, calls) && t in calls && calls[t].Releasing? && calls[t].es != []
    ensures var e := calls[t].es[0];
            e in ex && Owned(list, ex[e := Cleared(ex[e])], calls[t := Releasing(calls[t].es[1..], bs)])
  {
    var c := calls[t];
    assert c.es[0] in Pending(c);
    assert forall x :: x in c.es ==> x == c.es[0] || x in c.es[1..];
    assert forall x :: x in c.es[1..] ==> x in c.es;
    ClearedHeld(list, ex, c.es[0], t);
    ClearedExchanges(list, ex, calls, t, bs);
  }

  /** An exchange that a call releases is not one of the list's. */
  lemma ClearedHeld(list: seq<nat>, ex: map<nat, Exchange>, e: nat, t: nat)
    requires HeldOk(list, ex) && e in ex && ex[e].holder == With(t)
    ensures HeldOk(list, ex[e := Cleared(ex[e])])
  {
  }

  lemma ClearedExchanges(list: seq<nat>, ex: map<nat, Exchange>, calls: map<nat, Call>, t: nat, bs: seq<nat>)
    requires ExchangesOk(list, ex, calls) && t in calls && calls[t].Releasing? && calls[t].es != []
    requires calls[t].es[0] in ex
    ensures var e := calls[t].es[0];
            ExchangesOk(list, ex[e := Cleared(ex[e])], calls[t := Releasing(calls[t].es[1..], bs)])
  {
    var c := calls[t];
    assert forall x :: x in c.es ==> x == c.es[0] || x in c.es[1..];
  }

  lemma ReleaseOwned(s: Sys, t: nat)
    requires Owned(s.list, s.ex, s.calls)
    ensures var r := DoRelease(s, t); Owned(r.list, r.ex, r.calls)
  {
    if t in s.calls && s.calls[t].Releasing? {
      var c := s.calls[t];
      if c.bs != [] {
        FreeCallOwned(s.list, s.ex, s.calls, t, Releasing(c.es, c.bs[1..]));
      } else if c.es != [] {
        ClearedOwned(s.list, s.ex, s.calls, t, Attached(s.ex[c.es[0]]));
      } else {
        FreeCallOwned(s.list, s.ex, s.calls, t, Done);
      }
    }
  }

  lemma WrapOwned(s: Sys, e: nat, k: Kind, b: nat)
    requires Owned(s.list, s.ex, s.calls)
    ensures var r := DoWrap(s, e, k, b); Owned(r.list, r.ex, r.calls)
  {
  }

  lemma ObserveOwned(s: Sys, e: nat, data: seq<byte>)
    requires Owned(s.list, s.ex, s.calls)
    ensures var r := DoObserve(s, e, data); Owned(r.list, r.ex, r.calls)
  {
  }

  // ---- Buffers keep an owner ----

  lemma FreeCallStored(ex: map<nat, Exchange>, bufs: map<nat, Buffer>, calls: map<nat, Call>, t: nat, c: Call)
    requires Stored(ex, bufs, calls) && ToClose(c) == [] && (t in calls ==> ToClose(calls[t]) == [])
    ensures Stored(ex, bufs, calls[t := c])
  {
  }

  /** The same exchanges, with the same buffers attached. */
  ghost predicate SameSlots(ex: map<nat, Exchange>, ex': map<nat, Exchange>) {
    && ex.Keys == ex'.Keys
    && forall e :: e in ex ==>
         ex[e].sent == ex'[e].sent && ex[e].response == ex'[e].response && ex[e].events == ex'[e].events
  }

  lemma SameSlotsStored(ex: map<nat, Exchange>, ex': map<nat, Exchange>, bufs: map<nat, Buffer>, calls: map<nat, Call>)
    requires Stored(ex, bufs, calls) && SameSlots(ex, ex')
    ensures Stored(ex', bufs, calls)
  {
    forall b | b in bufs
      ensures BufferOk(ex', bufs, calls, b)
    {
      assert BufferOk(ex, bufs, calls, b);
    }
  }

  lemma CreatedStored(ex: map<nat, Exchange>, bufs: map<nat, Buffer>, calls: map<nat, Call>, e: nat, x: Exchange)
    requires Stored(ex, bufs, calls) && e !in ex && x.sent.None? && x.response.None? && x.events.None?
    ensures Stored(ex[e := x], bufs, calls)
  {
  }

  lemma LostStored(ex: map<nat, Exchange>, bufs: map<nat, Buffer>, calls: map<nat, Call>, e: nat, k: Kind)
    requires Stored(ex, bufs, calls) && e in ex && Get(ex[e], k).Some? && Get(ex[e], k).value in bufs
    requires !bufs[Get(ex[e], k).value].closed
    ensures Stored(ex[e := Detached(ex[e], k)], Lose(bufs, Get(ex[e], k)), calls)
  {
  }

  lemma AttachedStored(ex: map<nat, Exchange>, bufs: map<nat, Buffer>, calls: map<nat, Call>, e: nat, k: Kind, b: nat)
    requires Stored(ex, bufs, calls) && e in ex && Get(ex[e], k).None? && b !in bufs
    ensures Stored(ex[e := Attach(ex[e], k, b)], bufs[b := Buffer(false, [], On(e, k))], calls)
  {
  }

  lemma ClosedStored(ex: map<nat, Exchange>, bufs: map<nat, Buffer>, calls: map<nat, Call>, t: nat)
    requires Stored(ex, bufs, calls) && t in calls && calls[t].Releasing? && calls[t].bs != []
    ensures var c := calls[t]; var b := c.bs[0];
            b in bufs && Stored(ex, bufs[b := Buffer(true, [], bufs[b].place)], calls[t := Releasing(c.es, c.bs[1..])])
  {
    var c := calls[t];
    assert c.bs[0] in ToClose(c);
    assert forall x :: x in c.bs ==> x == c.bs[0] || x in c.bs[1..];
    assert forall x :: x in c.bs[1..] ==> x in c.bs;
  }

  lemma AttachedIsSlots(x: Exchange, b: nat)
    ensures b in Attached(x) <==> Some(b) == x.sent || Some(b) == x.response || Some(b) == x.events
  {
    if Some(b) == x.sent {
      assert Attached(x)[0] == b;
    } else if Some(b) == x.response {
      assert Attached(x)[|ToSeq(x.sent)|] == b;
    } else if Some(b) == x.events {
      assert Attached(x)[|ToSeq(x.sent)| + |ToSeq(x.response)|] == b;
    }
  }

  lemma UnpluggedBuffers(ex: map<nat, Exchange>, bufs: map<nat, Buffer>, calls: map<nat, Call>,
                         e: nat, t: nat, es: seq<nat>)
    requires BuffersOk(ex, bufs, calls) && e in ex && t in calls && ToClose(calls[t]) == []
    ensures BuffersOk(ex[e := Cleared(ex[e])], Unplug(bufs, e, t), calls[t := Releasing(es, Attached(ex[e]))])
  {
    var ex', bufs', calls' := ex[e := Cleared(ex[e])], Unplug(bufs, e, t), calls[t := Releasing(es, Attached(ex[e]))];
    forall b | b in bufs'
      ensures BufferOk(ex', bufs', calls', b)
    {
      assert BufferOk(ex, bufs, calls, b);
      AttachedIsSlots(ex[e], b);
    }
  }

  lemma UnpluggedTaken(ex: map<nat, Exchange>, bufs: map<nat, Buffer>, calls: map<nat, Call>,
                       e: nat, t: nat, es: seq<nat>)
    requires SlotsOk(ex, bufs) && TakenOk(bufs, calls) && e in ex && t in calls && ToClose(calls[t]) == []
    ensures TakenOk(Unplug(bufs, e, t), calls[t := Releasing(es, Attached(ex[e]))])
  {
    forall b | b in Attached(ex[e])
      ensures b in bufs && bufs[b].place.On? && bufs[b].place.exchange == e
    {
      AttachedIsSlots(ex[e], b);
    }
  }

  lemma UnpluggedSlots(ex: map<nat, Exchange>, bufs: map<nat, Buffer>, e: nat, t: nat)
    requires SlotsOk(ex, bufs) && e in ex
    ensures SlotsOk(ex[e := Cleared(ex[e])], Unplug(bufs, e, t))
  {
  }

  lemma UnpluggedStored(ex: map<nat, Exchange>, bufs: map<nat, Buffer>, calls: map<nat, Call>,
                        e: nat, t: nat, es: seq<nat>)
    requires Stored(ex, bufs, calls) && e in ex && t in calls && ToClose(calls[t]) == []
    ensures Stored(ex[e := Cleared(ex[e])], Unplug(bufs, e, t), calls[t := Releasing(es, Attached(ex[e]))])
  {
    UnpluggedBuffers(ex, bufs, calls, e, t, es);
    UnpluggedSlots(ex, bufs, e, t);
    UnpluggedTaken(ex, bufs, calls, e, t, es);
  }

  lemma BeginRecordStored(s: Sys, t: nat, e: nat, sent: Option<nat>)
    requires Stored(s.ex, s.bufs, s.calls)
    ensures var r := DoBeginRecord(s, t, e, sent); Stored(r.ex, r.bufs, r.calls)
  {
    if t in s.calls || e in s.ex || (sent.Some? && sent.value in s.bufs) {
    } else if s.closed {
      FreeCallStored(s.ex, s.bufs, s.calls, t, Done);
    } else {
      var x := Exchange(false, With(t), None, None, None, []);
      FreeCallStored(s.ex, s.bufs, s.calls, t, Publishing(e));
      CreatedStored(s.ex, s.bufs, s.calls[t := Publishing(e)], e, x);
      if sent.Some? {
        AttachedStored(s.ex[e := x], s.bufs, s.calls[t := Publishing(e)], e, Sent, sent.value);
        assert s.ex[e := x][e := Attach(x, Sent, sent.value)] == s.ex[e := Attach(x, Sent, sent.value)];
      }
    }
  }

  lemma MovedStored(ex: map<nat, Exchange>, bufs: map<nat, Buffer>, calls: map<nat, Call>, e: nat, h: Holder)
    requires Stored(ex, bufs, calls)
    ensures Stored(Move(ex, e, h), bufs, calls)
  {
    SameSlotsStored(ex, Move(ex, e, h), bufs, calls);
  }

  lemma PublishStored(s: Sys, t: nat, max: nat)
    requires max >= 2 && Stored(s.ex, s.bufs, s.calls)
    ensures var r := DoPublish(s, t, max); Stored(r.ex, r.bufs, r.calls)
  {
    if t in s.calls && s.calls[t].Publishing? {
      var e, c := s.calls[t].e, DoPublish(s, t, max).calls[t];
      FreeCallStored(s.ex, s.bufs, s.calls, t, c);
      if !s.closed {
        MovedStored(s.ex, s.bufs, s.calls[t := c], e, Held);
        if |s.list| >= max {
          MovedStored(Move(s.ex, e, Held), s.bufs, s.calls[t := c], s.list[1], With(t));
        }
      }
    }
  }

  lemma DetachStored(s: Sys, t: nat)
    requires Stored(s.ex, s.bufs, s.calls)
    ensures var r := DoDetach(s, t); Stored(r.ex, r.bufs, r.calls)
  {
    var r := DoDetach(s, t);
    if t in s.calls && s.calls[t].Finishing? {
      FreeCallStored(s.ex, s.bufs, s.calls, t, r.calls[t]);
      SameSlotsStored(s.ex, r.ex, s.bufs, r.calls);
    }
  }

  lemma ReleaseStored(s: Sys, t: nat)
    requires Stored(s.ex, s.bufs, s.calls)
    ensures var r := DoRelease(s, t); Stored(r.ex, r.bufs, r.calls)
  {
    if t in s.calls && s.calls[t].Releasing? {
      var c := s.calls[t];
      if c.bs != [] {
        ClosedStored(s.ex, s.bufs, s.calls, t);
      } else if c.es != [] && c.es[0] in s.ex {
        UnpluggedStored(s.ex, s.bufs, s.calls, c.es[0], t, c.es[1..]);
      } else {
        FreeCallStored(s.ex, s.bufs, s.calls, t, Done);
      }
    }
  }

  lemma WrapStored(s: Sys, e: nat, k: Kind, b: nat)
    requires Stored(s.ex, s.bufs, s.calls)
    ensures var r := DoWrap(s, e, k, b); Stored(r.ex, r.bufs, r.calls)
  {
    if e in s.ex && !s.ex[e].closed && b !in s.bufs {
      var o := Get(s.ex[e], k);
      if o.Some? {
        assert SlotOk(o, s.bufs, e, k);
        LostStored(s.ex, s.bufs, s.calls, e, k);
        var ex := s.ex[e := Detached(s.ex[e], k)];
        AttachedStored(ex, Lose(s.bufs, o), s.calls, e, k, b);
        assert ex[e := Attach(ex[e], k, b)] == s.ex[e := Attach(s.ex[e], k, b)];
      } else {
        AttachedStored(s.ex, s.bufs, s.calls, e, k, b);
      }
    }
  }

  lemma ConsumeStored(s: Sys, b: nat, data: seq<byte>)
    requires Stored(s.ex, s.bufs, s.calls)
    ensures var r := DoConsume(s, b, data); Stored(r.ex, r.bufs, r.calls)
  {
    var r := DoConsume(s, b, data);
    forall x | x in r.bufs
      ensures BufferOk(r.ex, r.bufs, r.calls, x)
    {
      assert BufferOk(s.ex, s.bufs, s.calls, x);
    }
  }

  lemma ObserveStored(s: Sys, e: nat, data: seq<byte>)
    requires Stored(s.ex, s.bufs, s.calls)
    ensures var r := DoObserve(s, e, data); Stored(r.ex, r.bufs, r.calls)
  {
    SameSlotsStored(s.ex, DoObserve(s, e, data).ex, s.bufs, s.calls);
  }

  // ---- Every run ----

  lemma ListKept(s: Sys, l: Label, max: nat)
    requires max >= 2 && ListOk(s, max)
    ensures ListOk(Step(s, l, max), max)
  {
    if l.Publish? && |s.published| >= max {
      RollOn(s.published, if l.t in s.calls && s.calls[l.t].Publishing? then s.calls[l.t].e else 0, max);
    }
  }

  lemma StepKeepsInv(s: Sys, l: Label, max: nat)
    requires max >= 2 && Inv(s, max)
    ensures Inv(Step(s, l, max), max)
  {
    ListKept(s, l, max);
    match l
    case BeginRecord(t, e, sent) => BeginRecordOwned(s, t, e, sent); BeginRecordStored(s, t, e, sent);
    case Publish(t) => PublishOwned(s, t, max); PublishStored(s, t, max);
    case BeginFinish(t) =>
      if t !in s.calls {
        FreeCallOwned(s.list, s.ex, s.calls, t, Finishing);
        FreeCallStored(s.ex, s.bufs, s.calls, t, Finishing);
      }
    case Detach(t) => DetachOwned(s, t); DetachStored(s, t);
    case Release(t) => ReleaseOwned(s, t); ReleaseStored(s, t);
    case Wrap(e, streaming, b) => WrapOwned(s, e, KindOf(streaming), b); WrapStored(s, e, KindOf(streaming), b);
    case Consume(b, data) => ConsumeStored(s, b, data);
    case Observe(e, data) => ObserveOwned(s, e, data); ObserveStored(s, e, data);
  }

  lemma {:induction false} RunKeepsInv(ls: seq<Label>, max: nat)
    requires max >= 2
    ensures Inv(Run(ls, max), max)
  {
    if ls != [] {
      RunKeepsInv(ls[..|ls| - 1], max);
      StepKeepsInv(Run(ls[..|ls| - 1], max), ls[|ls| - 1], max);
    }
  }

  // ---- What the runs guarantee ----

  ghost predicate Quiet(s: Sys) {
    forall t :: t in s.calls ==> s.calls[t].Done?
  }

  /** Once every call has returned, every exchange ever created is held, and then untouched, or
      released with nothing attached; and while the collector is open it holds the first exchange
      published and the latest others. */
  lemma {:induction false} HeldOrReleased(ls: seq<Label>, max: nat, e: nat)
    requires max >= 2 && Quiet(Run(ls, max)) && e in Run(ls, max).ex
    ensures var s := Run(ls, max);
            && (e in s.list <==> !s.ex[e].closed)
            && (s.ex[e].closed ==> Bare(s.ex[e]))
            && s.list == if s.closed then [] else FirstPlusLatest(s.published, max)
  {
    RunKeepsInv(ls, max);
    var s := Run(ls, max);
    assert ExchangeOk(s.list, s.ex, s.calls, e);
  }

  /** After Finish, once every call has returned, no exchange keeps anything, and the buffers left
      alive are exactly those that a second WrapResponse had pushed aside. */
  lemma {:induction false} FinishReleasesAll(ls: seq<Label>, max: nat)
    requires max >= 2 && Quiet(Run(ls, max)) && Run(ls, max).closed
    ensures forall e :: e in Run(ls, max).ex ==> Run(ls, max).ex[e].closed && Bare(Run(ls, max).ex[e])
    ensures forall b :: b in Run(ls, max).bufs ==> (Run(ls, max).bufs[b].closed <==> !Run(ls, max).bufs[b].place.Lost?)
  {
    RunKeepsInv(ls, max);
    var s := Run(ls, max);
    forall e | e in s.ex
      ensures s.ex[e].closed && Bare(s.ex[e])
    {
      assert ExchangeOk(s.list, s.ex, s.calls, e);
    }
    forall b | b in s.bufs
      ensures s.bufs[b].closed <==> !s.bufs[b].place.Lost?
    {
      assert BufferOk(s.ex, s.bufs, s.calls, b);
    }
  }

  /** A WrapResponse that finds an observer of its own kind on the exchange. */
  ghost predicate Replaces(s: Sys, l: Label) {
    && l.Wrap? && l.e in s.ex && !s.ex[l.e].closed && l.b !in s.bufs
    && Get(s.ex[l.e], KindOf(l.streaming)).Some?
  }

  ghost predicate EverReplaces(ls: seq<Label>, max: nat)
    requires max >= 2
  {
    ls != [] && (EverReplaces(ls[..|ls| - 1], max) || Replaces(Run(ls[..|ls| - 1], max), ls[|ls| - 1]))
  }

  ghost predicate AnyLost(bufs: map<nat, Buffer>) {
    exists b :: b in bufs && bufs[b].place.Lost?
  }

  /** Apart from WrapResponse no step loses a buffer, and none ever finds one again. */
  lemma OthersLoseNothing(s: Sys, l: Label, max: nat)
    requires max >= 2 && TakenOk(s.bufs, s.calls) && !l.Wrap?
    ensures var r := Step(s, l, max);
            && (forall b :: b in s.bufs ==> b in r.bufs && (r.bufs[b].place.Lost? <==> s.bufs[b].place.Lost?))
            && (forall b :: b in r.bufs && r.bufs[b].place.Lost? ==> b in s.bufs)
  {
    match l
    case Release(t) =>
      if t in s.calls && s.calls[t].Releasing? && s.calls[t].bs != [] {
        assert s.calls[t].bs[0] in ToClose(s.calls[t]);
      }
    case _ =>
  }

  lemma StepLoses(s: Sys, l: Label, max: nat)
    requires max >= 2 && Inv(s, max)
    ensures AnyLost(Step(s, l, max).bufs) <==> AnyLost(s.bufs) || Replaces(s, l)
  {
    if l.Wrap? {
      WrapLoses(s, l);
    } else {
      OthersLoseNothing(s, l, max);
    }
  }

  lemma WrapLoses(s: Sys, l: Label)
    requires l.Wrap? && SlotsOk(s.ex, s.bufs)
    ensures AnyLost(DoWrap(s, l.e, KindOf(l.streaming), l.b).bufs) <==> AnyLost(s.bufs) || Replaces(s, l)
  {
    var r := DoWrap(s, l.e, KindOf(l.streaming), l.b);
    if AnyLost(s.bufs) {
      var b :| b in s.bufs && s.bufs[b].place.Lost?;
      assert b in r.bufs && r.bufs[b].place.Lost?;
    }
    if Replaces(s, l) {
      assert SlotOk(Get(s.ex[l.e], KindOf(l.streaming)), s.bufs, l.e, KindOf(l.streaming));
      var b := Get(s.ex[l.e], KindOf(l.streaming)).value;
      assert b in r.bufs && r.bufs[b].place.Lost?;
    }
    if AnyLost(r.bufs) && !Replaces(s, l) {
      var b :| b in r.bufs && r.bufs[b].place.Lost?;
      assert b in s.bufs && s.bufs[b].place.Lost?;
    }
  }

  lemma {:induction false} LostIfReplaced(ls: seq<Label>, max: nat)
    requires max >= 2
    ensures AnyLost(Run(ls, max).bufs) <==> EverReplaces(ls, max)
  {
    if ls != [] {
      RunKeepsInv(ls[..|ls| - 1], max);
      LostIfReplaced(ls[..|ls| - 1], max);
      StepLoses(Run(ls[..|ls| - 1], max), ls[|ls| - 1], max);
    }
  }

  /** Nothing is left that a late read could fill. */
  ghost predicate Sealed(s: Sys) {
    s.closed && (forall e :: e in s.ex ==> s.ex[e].closed && Bare(s.ex[e]))
    && (forall b :: b in s.bufs ==> s.bufs[b].closed && s.bufs[b].data == [])
  }

  lemma StepKeepsSealed(s: Sys, l: Label, max: nat)
    requires max >= 2 && Sealed(s)
    ensures Sealed(Step(s, l, max))
  {
  }

  lemma {:induction false} RunKeepsSealed(ls: seq<Label>, more: seq<Label>, max: nat)
    requires max >= 2 && Sealed(Run(ls, max))
    ensures Sealed(Run(ls + more, max))
    decreases |more|
  {
    if more == [] {
      assert ls + more == ls;
    } else {
      var init := more[..|more| - 1];
      RunKeepsSealed(ls, init, max);
      assert (ls + more)[..|ls + more| - 1] == ls + init;
      StepKeepsSealed(Run(ls + init, max), more[|more| - 1], max);
    }
  }

  ghost predicate LateReadsLeaveNothing(ls: seq<Label>, max: nat)
    requires max >= 2
  {
    forall more :: Sealed(Run(ls + more, max))
  }

  /** After Finish and the return of every call, whatever happens later leaves every buffer empty and
      every exchange bare, if and only if no WrapResponse had replaced an observer on an open exchange. */
  lemma {:induction false} NothingOutlivesFinish(ls: seq<Label>, max: nat)
    requires max >= 2 && Quiet(Run(ls, max)) && Run(ls, max).closed
    ensures LateReadsLeaveNothing(ls, max) <==> !EverReplaces(ls, max)
  {
    var s := Run(ls, max);
    FinishReleasesAll(ls, max);
    LostIfReplaced(ls, max);
    if EverReplaces(ls, max) {
      assert ls + [] == ls;
      assert !Sealed(Run(ls + [], max));
    } else {
      RunKeepsInv(ls, max);
      assert forall b :: b in s.bufs ==> BufferOk(s.ex, s.bufs, s.calls, b);
      forall more
        ensures Sealed(Run(ls + more, max))
      {
        RunKeepsSealed(ls, more, max);
      }
    }
  }

  /** What then survives is not only the buffer but what is read into it later. */
  lemma {:induction false} ReplacedBufferFills(ls: seq<Label>, max: nat, b: nat, data: seq<byte>)
    requires max >= 2 && b in Run(ls, max).bufs && Run(ls, max).bufs[b].place.Lost?
    ensures Run(ls + [Consume(b, data)], max).bufs[b].data == data
  {
    RunKeepsInv(ls, max);
    var s := Run(ls, max);
    assert BufferOk(s.ex, s.bufs, s.calls, b);
    assert (ls + [Consume(b, data)])[..|ls|] == ls;
  }

  // ---- Every call returns ----

  function Rank(c: Call, max: nat): nat {
    match c
    case Publishing(e) => 6
    case Finishing => 4 * max + 2
    case Releasing(es, bs) => 4 * |es| + |bs| + 1
    case Done => 0
  }

  ghost predicate Acts(s: Sys, l: Label, t: nat)
    requires t in s.calls
  {
    match s.calls[t]
    case Publishing(e) => l == Publish(t)
    case Finishing => l == Detach(t)
    case Releasing(es, bs) => l == Release(t)
    case Done => false
  }

  lemma ReleaseWorksOff(s: Sys, t: nat, max: nat)
    requires t in s.calls && s.calls[t].Releasing?
    ensures var r := DoRelease(s, t); t in r.calls && Rank(r.calls[t], max) < Rank(s.calls[t], max)
  {
  }

  lemma StepWorksOff(s: Sys, l: Label, t: nat, max: nat)
    requires max >= 2 && |s.list| <= max && t in s.calls
    ensures t in Step(s, l, max).calls
    ensures Acts(s, l, t) ==> Rank(Step(s, l, max).calls[t], max) < Rank(s.calls[t], max)
    ensures !Acts(s, l, t) ==> Step(s, l, max).calls[t] == s.calls[t]
  {
    match l
    case Release(u) =>
      if u == t && s.calls[t].Releasing? {
        ReleaseWorksOff(s, t, max);
      }
    case _ =>
  }

  lemma {:induction false} ListFits(ls: seq<Label>, max: nat)
    requires max >= 2
    ensures |Run(ls, max).list| <= max
  {
    RunKeepsInv(ls, max);
  }

  ghost function OwnSteps(ls: seq<Label>, t: nat, max: nat): nat
    requires max >= 2
  {
    if ls == [] then 0 else
      var init, last := ls[..|ls| - 1], ls[|ls| - 1];
      OwnSteps(init, t, max) + if t in Run(init, max).calls && Acts(Run(init, max), last, t) then 1 else 0
  }

  lemma CallsBegin(s: Sys, l: Label, t: nat, max: nat)
    requires max >= 2 && t !in s.calls && t in Step(s, l, max).calls
    ensures Rank(Step(s, l, max).calls[t], max) <= 4 * max + 2
  {
  }

  /** Under every schedule a call of record or Finish returns within `4 * max + 2` steps of its own. */
  lemma {:induction false} CallsReturn(ls: seq<Label>, t: nat, max: nat)
    requires max >= 2
    ensures t !in Run(ls, max).calls ==> OwnSteps(ls, t, max) == 0
    ensures t in Run(ls, max).calls ==> OwnSteps(ls, t, max) + Rank(Run(ls, max).calls[t], max) <= 4 * max + 2
  {
    if ls != [] {
      var init, last := ls[..|ls| - 1], ls[|ls| - 1];
      var s := Run(init, max);
      CallsReturn(init, t, max);
      ListFits(init, max);
      if t in s.calls {
        StepWorksOff(s, last, t, max);
      } else if t in Run(ls, max).calls {
        CallsBegin(s, last, t, max);
      }
    }
  }

  /** What the call does next. */
  function OwnLabel(s: Sys, t: nat): Label
    requires t in s.calls
  {
    match s.calls[t]
    case Publishing(e) => Publish(t)
    case Finishing => Detach(t)
    case _ => Release(t)
  }

  /** A schedule in rounds: whatever the others do in a round, the call then takes its own next step. */
  function InRounds(ls: seq<Label>, rounds: seq<seq<Label>>, t: nat, max: nat): seq<Label>
    requires max >= 2
  {
    if rounds == [] then ls
    else
      var before := InRounds(ls, rounds[..|rounds| - 1], t, max) + rounds[|rounds| - 1];
      if t in Run(before, max).calls then before + [OwnLabel(Run(before, max), t)] else before
  }

  lemma {:induction false} RunOneMore(ls: seq<Label>, l: Label, max: nat)
    requires max >= 2
    ensures Run(ls + [l], max) == Step(Run(ls, max), l, max)
  {
    assert (ls + [l])[..|ls|] == ls;
  }

  ghost predicate NotAbove(ls: seq<Label>, t: nat, rank: nat, max: nat)
    requires max >= 2
  {
    t in Run(ls, max).calls && Rank(Run(ls, max).calls[t], max) <= rank
  }

  lemma NeverRaised(ls: seq<Label>, l: Label, t: nat, rank: nat, max: nat)
    requires max >= 2 && NotAbove(ls, t, rank, max)
    ensures NotAbove(ls + [l], t, rank, max)
  {
    ListFits(ls, max);
    StepWorksOff(Run(ls, max), l, t, max);
    RunOneMore(ls, l, max);
  }

  lemma {:induction false} RunWorksOff(ls: seq<Label>, more: seq<Label>, t: nat, rank: nat, max: nat)
    requires max >= 2 && NotAbove(ls, t, rank, max)
    ensures NotAbove(ls + more, t, rank, max)
    decreases |more|
  {
    if more == [] {
      assert ls + more == ls;
    } else {
      NeverRaised(ls, more[0], t, rank, max);
      RunWorksOff(ls + [more[0]], more[1..], t, rank, max);
      assert ls + [more[0]] + more[1..] == ls + more;
    }
  }

  lemma {:induction false} OwnStep(ls: seq<Label>, t: nat, max: nat)
    requires max >= 2 && t in Run(ls, max).calls
    ensures var r := Run(ls + [OwnLabel(Run(ls, max), t)], max);
            && t in r.calls
            && (Run(ls, max).calls[t].Done? ==> r.calls[t].Done?)
            && (!Run(ls, max).calls[t].Done? ==> Rank(r.calls[t], max) < Rank(Run(ls, max).calls[t], max))
  {
    ListFits(ls, max);
    var l := OwnLabel(Run(ls, max), t);
    assert (ls + [l])[..|ls|] == ls;
    StepWorksOff(Run(ls, max), l, t, max);
  }

  lemma {:induction false} RoundsWorkOff(ls: seq<Label>, rounds: seq<seq<Label>>, t: nat, max: nat)
    requires max >= 2 && t in Run(ls, max).calls
    ensures var r := Run(InRounds(ls, rounds, t, max), max);
            t in r.calls && (r.calls[t].Done? || Rank(r.calls[t], max) + |rounds| <= Rank(Run(ls, max).calls[t], max))
    decreases |rounds|
  {
    if rounds != [] {
      var front := InRounds(ls, rounds[..|rounds| - 1], t, max);
      RoundsWorkOff(ls, rounds[..|rounds| - 1], t, max);
      RunWorksOff(front, rounds[|rounds| - 1], t, Rank(Run(front, max).calls[t], max), max);
      OwnStep(front + rounds[|rounds| - 1], t, max);
    }
  }

  /** No call waits for another: from every reachable state, and whatever the others do between its
      steps, `4 * max + 2` turns of its own bring a call of record or Finish to its end. */
  lemma {:induction false} CallsNeverWait(ls: seq<Label>, rounds: seq<seq<Label>>, t: nat, max: nat)
    requires max >= 2 && t in Run(ls, max).calls && |rounds| > 4 * max + 2
    ensures var r := Run(InRounds(ls, rounds, t, max), max); t in r.calls && r.calls[t].Done?
  {
    RoundsWorkOff(ls, rounds, t, max);
    CallsReturn(ls, t, max);
  }

  // ---- A replaced buffer, step by step ----

  /** One exchange is recorded and its response wrapped, and wrapped again; then Finish runs to its end. */
  const WRAPPED: seq<Label> := [BeginRecord(0, 0, None)] + [Publish(0)] + [Wrap(0, false, 1)]
  const WRAPPED_TWICE: seq<Label> := WRAPPED + [Wrap(0, false, 2)]
  const TAKEN_OVER: seq<Label> := WRAPPED_TWICE + [BeginFinish(1)] + [Detach(1)]
  const DETACHED: seq<Label> := TAKEN_OVER + [Release(1)]
  const FINISHED: seq<Label> := DETACHED + [Release(1)] + [Release(1)]

  function ResponseOn(b: nat): Exchange {
    Exchange(false, Held, None, Some(b), None, [])
  }

  function OneHeld(b: nat, bufs: map<nat, Buffer>, calls: map<nat, Call>): Sys {
    Sys(false, [0], [0], map[0 := ResponseOn(b)], bufs, calls)
  }

  function OneReleased(last: Buffer, call: Call): Sys {
    Sys(true, [], [0], map[0 := Exchange(true, With(1), None, None, None, [])],
        map[1 := Buffer(false, [], Lost), 2 := last], map[0 := Done, 1 := call])
  }

  lemma {:induction false} Wraps(max: nat)
    requires max >= 2
    ensures Run(WRAPPED, max) == OneHeld(1, map[1 := Buffer(false, [], On(0, Response))], map[0 := Done])
  {
    var none: seq<Label> := [];
    var begun: seq<Label> := [BeginRecord(0, 0, None)];
    RunOneMore(none, BeginRecord(0, 0, None), max);
    assert none + begun == begun;
    RunOneMore(begun, Publish(0), max);
    RunOneMore(begun + [Publish(0)], Wrap(0, false, 1), max);
  }

  lemma {:induction false} WrapsTwice(max: nat)
    requires max >= 2
    ensures Run(WRAPPED_TWICE, max) ==
            OneHeld(2, map[1 := Buffer(false, [], Lost), 2 := Buffer(false, [], On(0, Response))], map[0 := Done])
    ensures EverReplaces(WRAPPED_TWICE, max)
  {
    Wraps(max);
    RunOneMore(WRAPPED, Wrap(0, false, 2), max);
    assert WRAPPED_TWICE[..|WRAPPED|] == WRAPPED;
  }

  lemma {:induction false} ReplacementStays(ls: seq<Label>, more: seq<Label>, max: nat)
    requires max >= 2 && EverReplaces(ls, max)
    ensures EverReplaces(ls + more, max)
    decreases |more|
  {
    if more == [] {
      assert ls + more == ls;
    } else {
      ReplacementStays(ls, more[..|more| - 1], max);
      assert (ls + more)[..|ls + more| - 1] == ls + more[..|more| - 1];
    }
  }

  const TAKEN := Sys(true, [], [0], map[0 := ResponseOn(2).(holder := With(1))],
                     map[1 := Buffer(false, [], Lost), 2 := Buffer(false, [], On(0, Response))],
                     map[0 := Done, 1 := Releasing([0], [])])

  lemma {:induction false} TakesOver(max: nat)
    requires max >= 2
    ensures Run(TAKEN_OVER, max) == TAKEN
  {
    WrapsTwice(max);
    RunOneMore(WRAPPED_TWICE, BeginFinish(1), max);
    RunOneMore(WRAPPED_TWICE + [BeginFinish(1)], Detach(1), max);
  }

  lemma UnplugsOne()
    ensures DoRelease(TAKEN, 1) == OneReleased(Buffer(false, [], Taken(1)), Releasing([], [2]))
  {
    assert Attached(ResponseOn(2).(holder := With(1))) == [2] && [0][1..] == [];
  }

  lemma {:induction false} DetachesOne(max: nat)
    requires max >= 2
    ensures Run(DETACHED, max) == OneReleased(Buffer(false, [], Taken(1)), Releasing([], [2]))
  {
    TakesOver(max);
    UnplugsOne();
    RunOneMore(TAKEN_OVER, Release(1), max);
  }

  lemma ReleasesOne()
    ensures DoRelease(OneReleased(Buffer(false, [], Taken(1)), Releasing([], [2])), 1)
         == OneReleased(Buffer(true, [], Taken(1)), Releasing([], []))
    ensures DoRelease(OneReleased(Buffer(true, [], Taken(1)), Releasing([], [])), 1)
         == OneReleased(Buffer(true, [], Taken(1)), Done)
  {
    var s := OneReleased(Buffer(false, [], Taken(1)), Releasing([], [2]));
    var r := OneReleased(Buffer(true, [], Taken(1)), Releasing([], []));
    assert [2][1..] == [];
    assert DoRelease(s, 1).bufs == r.bufs;
    assert DoRelease(s, 1).calls == r.calls;
    assert DoRelease(r, 1).calls == OneReleased(Buffer(true, [], Taken(1)), Done).calls;
  }

  lemma {:induction false} FinishesWith(max: nat)
    requires max >= 2
    ensures Run(FINISHED, max) == OneReleased(Buffer(true, [], Taken(1)), Done)
  {
    DetachesOne(max);
    ReleasesOne();
    RunOneMore(DETACHED, Release(1), max);
    RunOneMore(DETACHED + [Release(1)], Release(1), max);
  }

  lemma {:induction false} FinishedRun(max: nat)
    requires max >= 2
    ensures Quiet(Run(FINISHED, max)) && Run(FINISHED, max).closed && EverReplaces(FINISHED, max)
  {
    FinishesWith(max);
    WrapsTwice(max);
    var more := [BeginFinish(1)] + [Detach(1)] + [Release(1)] + [Release(1)] + [Release(1)];
    assert FINISHED == WRAPPED_TWICE + more;
    ReplacementStays(WRAPPED_TWICE, more, max);
  }

  lemma StillFills(data: seq<byte>)
    ensures var r := DoConsume(OneReleased(Buffer(true, [], Taken(1)), Done), 1, data);
            1 in r.bufs && r.bufs[1].data == data
  {
  }

  /** The failing run: Finish and every call are over, and what is then read into the buffer that the
      second WrapResponse pushed aside stays there. */
  lemma {:induction false} ReplacedBufferOutlivesFinish(data: seq<byte>, max: nat)
    requires max >= 2
    ensures Quiet(Run(FINISHED, max)) && Run(FINISHED, max).closed && EverReplaces(FINISHED, max)
    ensures var r := Run(FINISHED + [Consume(1, data)], max); 1 in r.bufs && r.bufs[1].data == data
  {
    FinishedRun(max);
    FinishesWith(max);
    StillFills(data);
    RunOneMore(FINISHED, Consume(1, data), max);
  }
}
