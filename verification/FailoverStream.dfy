/** What a client sees of a streamed request, where every attempt writes to the client's own writer. */
module FailoverStream {
  import opened Bytes
  import opened Outcomes
  import opened StreamChunks
  import opened HttpResponse
  import opened Failover

  /** The attempts before the final one, or all of them if none is final. */
  function Abandoned(attempts: seq<Attempt>, c: Course): seq<Attempt>
    requires c.calls <= |attempts| && (c.final ==> c.calls > 0)
  {
    attempts[..if c.final then c.calls - 1 else c.calls]
  }

  /** What a stream would get without the abandoned attempts. */
  function Own(attempts: seq<Attempt>, c: Course): seq<Sent>
    requires c.calls <= |attempts| && (c.final ==> c.calls > 0)
  {
    if c.final then Live(attempts[c.calls - 1], true) + Closing(attempts[c.calls - 1], true) else [EXHAUSTED]
  }

  function BytesOf(attempts: seq<Attempt>): seq<byte> {
    if attempts == [] then [] else BytesOf(attempts[..|attempts| - 1]) + Body(attempts[|attempts| - 1].ops)
  }

  lemma {:induction false} OpsWriteBody(ops: seq<Op>)
    ensures Written(Relayed(ops)) == Body(ops)
  {
    if ops != [] {
      var front := ops[..|ops| - 1];
      OpsWriteBody(front);
      WrittenConcat(Relayed(front), [Passed(ops[|ops| - 1])]);
      WrittenOne(Passed(ops[|ops| - 1]));
    }
  }

  lemma WrittenOne(s: Sent)
    ensures Written([s]) == BytesIn(s)
  {
    var log := [s];
    assert log[..0] == [];
    assert Written(log[..0]) == [];
  }

  lemma {:induction false} WrittenConcat(a: seq<Sent>, b: seq<Sent>)
    ensures Written(a + b) == Written(a) + Written(b)
    decreases |b|
  {
    if b == [] {
      assert a + b == a;
    } else {
      assert (a + b)[..|a + b| - 1] == a + b[..|b| - 1];
      WrittenConcat(a, b[..|b| - 1]);
    }
  }

  lemma {:induction false} LiveWritesBytes(attempts: seq<Attempt>)
    ensures Written(AllLive(attempts, true)) == BytesOf(attempts)
  {
    if attempts != [] {
      var front, last := attempts[..|attempts| - 1], attempts[|attempts| - 1];
      LiveWritesBytes(front);
      OpsWriteBody(last.ops);
      WrittenConcat(AllLive(front, true), Relayed(last.ops));
    }
  }

  /** What a client sees of a streamed request, final or exhausted. All bytes that the abandoned
      attempts wrote stand in front of the rest, unless the response's status has no body; and the
      response is that of the final attempt (or of the exhaustion) alone exactly when the abandoned
      attempts left no trace, header by header. */
  lemma {:induction false} StreamKeepsAbandoned(attempts: seq<Attempt>, max: nat)
    requires 1 <= max <= |attempts|
    ensures var c := Calls(attempts, max, 0, {});
            var seen := SeenOf(TakeAll(UNTOUCHED, Served(attempts, c, true)));
            var before := TakeAll(UNTOUCHED, AllLive(Abandoned(attempts, c), true));
            && (seen.Response? ==>
                  seen.body == if BodyAllowed(seen.code)
                               then BytesOf(Abandoned(attempts, c)) + Written(Own(attempts, c)) else [])
            && (seen == SeenOf(TakeAll(UNTOUCHED, Own(attempts, c))) <==> Traceless(before, Own(attempts, c)))
  {
    var c := Calls(attempts, max, 0, {});
    var live := AllLive(Abandoned(attempts, c), true);
    SplitsOwn(attempts, c);
    WholeBody(live, Own(attempts, c));
    LiveWritesBytes(Abandoned(attempts, c));
    TakeConcat(UNTOUCHED, live, Own(attempts, c));
    BodyIsWritten(UNTOUCHED, live);
    SameIfTraceless(TakeAll(UNTOUCHED, live), Own(attempts, c));
  }

  lemma {:induction false} WholeBody(a: seq<Sent>, b: seq<Sent>)
    ensures var seen := SeenOf(TakeAll(UNTOUCHED, a + b));
            seen.Response? ==> seen.body == if BodyAllowed(seen.code) then Written(a) + Written(b) else []
  {
    BodyIsWritten(UNTOUCHED, a + b);
    WrittenConcat(a, b);
    assert [] + Written(a + b) == Written(a + b);
  }

  /** The abandoned attempts are exactly the calls whose verdict was to be retried. */
  lemma {:induction false} AbandonedAreRetried(attempts: seq<Attempt>, max: nat)
    requires 1 <= max <= |attempts|
    ensures var c := Calls(attempts, max, 0, {});
            && (forall i :: 0 <= i < |Abandoned(attempts, c)| ==> Retried(Abandoned(attempts, c)[i]))
            && (c.final ==> !Retried(attempts[c.calls - 1]))
  {
    var c := Calls(attempts, max, 0, {});
    forall i | 0 <= i < c.calls
      ensures !Retried(attempts[i]) <==> c.final && i == c.calls - 1
    {
      CallsAre(attempts, max, 0, {}, i);
    }
  }

  lemma SplitsOwn(attempts: seq<Attempt>, c: Course)
    requires c.calls <= |attempts| && (c.final ==> c.calls > 0)
    ensures Served(attempts, c, true) == AllLive(Abandoned(attempts, c), true) + Own(attempts, c)
  {
    if c.final {
      LiveAppend(attempts, c.calls - 1, true);
    }
  }

  // ---- Failing inputs ----

  lemma {:induction false} TakeTwo(w: Writer, ops: seq<Op>, a: Op, b: Op)
    requires ops == [a, b]
    ensures TakeAll(w, Relayed(ops)) == Take(Take(w, Passed(a)), Passed(b))
  {
    RelayedOne(a);
    assert ops[..1] == [a];
    TakeOne(w, Passed(a));
    TakeMore(w, [Passed(a)], Passed(b));
  }

  lemma RelayedOne(op: Op)
    ensures Relayed([op]) == [Passed(op)]
  {
    var ops := [op];
    assert ops[..0] == [];
    assert Relayed(ops[..0]) == [];
  }

  lemma TwoCalls(a: Attempt, b: Attempt)
    requires a.pick.Some? && b.pick.Some? && a.pick.value.id != b.pick.value.id && Retried(a) && !Retried(b)
    ensures Calls([a, b], 2, 0, {}) == Course(2, true)
  {
    assert Calls([a, b], 2, 1, {a.pick.value.id}) == Course(2, true);
  }

  /** What the client sees of two turns, the first abandoned, is what the second makes of what the
      first left. */
  lemma TwoAttempts(a: Attempt, b: Attempt)
    requires b.error.None?
    ensures TakeAll(UNTOUCHED, Served([a, b], Course(2, true), true)) ==
            TakeAll(TakeAll(UNTOUCHED, Relayed(a.ops)), Relayed(b.ops))
    ensures Own([a, b], Course(2, true)) == Relayed(b.ops)
  {
    var attempts, c := [a, b], Course(2, true);
    SplitsOwn(attempts, c);
    LiveOfOne(a);
    assert Abandoned(attempts, c) == [a];
    assert Relayed(b.ops) + [] == Relayed(b.ops);
    TakeConcat(UNTOUCHED, Relayed(a.ops), Relayed(b.ops));
  }

  lemma LiveOfOne(a: Attempt)
    ensures AllLive([a], true) == Relayed(a.ops)
  {
    var attempts := [a];
    assert attempts[..0] == [];
    assert AllLive(attempts[..0], true) == [];
  }

  /** An abandoned attempt that set one header and wrote nothing shows it in the answer of the next,
      which set another. */
  lemma AbandonedHeaderShows(a: Attempt, b: Attempt, x: string, y: string, u: string, v: string)
    requires a.pick.Some? && b.pick.Some? && a.pick.value.id != b.pick.value.id && x != y
    requires Retried(a) && a.ops == [SetHeader(x, [u])]
    requires !Retried(b) && b.ops == [SetHeader(y, [v]), WriteHeader(200)] && b.error.None?
    ensures Calls([a, b], 2, 0, {}) == Course(2, true)
    ensures SeenOf(TakeAll(UNTOUCHED, Served([a, b], Course(2, true), true))) ==
            Response(200, map[x := [u], y := [v]], [])
    ensures SeenOf(TakeAll(UNTOUCHED, Own([a, b], Course(2, true)))) == Response(200, map[y := [v]], [])
  {
    TwoCalls(a, b);
    TwoAttempts(a, b);
    TwoHeaders(a.ops, b.ops, x, y, u, v);
  }

  lemma {:induction false} TwoHeaders(first: seq<Op>, second: seq<Op>, x: string, y: string, u: string, v: string)
    requires x != y && first == [SetHeader(x, [u])] && second == [SetHeader(y, [v]), WriteHeader(200)]
    ensures SeenOf(TakeAll(TakeAll(UNTOUCHED, Relayed(first)), Relayed(second))) ==
            Response(200, map[x := [u], y := [v]], [])
    ensures SeenOf(TakeAll(UNTOUCHED, Relayed(second))) == Response(200, map[y := [v]], [])
  {
    RelayedOne(first[0]);
    TakeOne(UNTOUCHED, Passed(first[0]));
    HeaderThenStatus(TakeAll(UNTOUCHED, Relayed(first)), second, y, [v]);
    HeaderThenStatus(UNTOUCHED, second, y, [v]);
  }

  lemma HeaderAndStatus(w: Writer, key: string, values: seq<string>)
    requires Undecided(w)
    ensures SeenOf(Take(Take(w, Passed(SetHeader(key, values))), Passed(WriteHeader(200)))) ==
            Response(200, Lines(w.headers[key := values]), w.body)
  {
    var touched := w.(headers := w.headers[key := values]);
    assert Take(w, Passed(SetHeader(key, values))) == touched;
    assert Take(touched, Passed(WriteHeader(200))) == Commit(touched, 200);
  }

  lemma {:induction false} HeaderThenStatus(w: Writer, ops: seq<Op>, key: string, values: seq<string>)
    requires Undecided(w) && ops == [SetHeader(key, values), WriteHeader(200)]
    ensures SeenOf(TakeAll(w, Relayed(ops))) == Response(200, Lines(w.headers[key := values]), w.body)
  {
    TakeTwo(w, ops, ops[0], ops[1]);
    HeaderAndStatus(w, key, values);
  }

  /** One that wrote a status and a byte shows both. */
  lemma AbandonedWriteShows(a: Attempt, b: Attempt)
    requires a.pick.Some? && b.pick.Some? && a.pick.value.id != b.pick.value.id
    requires Retried(a) && a.ops == [WriteHeader(201), Op.Write([1])]
    requires !Retried(b) && b.ops == [WriteHeader(200), Op.Write([2])] && b.error.None?
    ensures Calls([a, b], 2, 0, {}) == Course(2, true)
    ensures SeenOf(TakeAll(UNTOUCHED, Served([a, b], Course(2, true), true))) == Response(201, map[], [1, 2])
  {
    TwoCalls(a, b);
    TwoAttempts(a, b);
    TwoWrites(a.ops, b.ops);
  }

  lemma {:induction false} TwoWrites(first: seq<Op>, second: seq<Op>)
    requires first == [WriteHeader(201), Op.Write([1])] && second == [WriteHeader(200), Op.Write([2])]
    ensures SeenOf(TakeAll(TakeAll(UNTOUCHED, Relayed(first)), Relayed(second))) == Response(201, map[], [1, 2])
  {
    TakeTwo(UNTOUCHED, first, first[0], first[1]);
    TakeTwo(TakeAll(UNTOUCHED, Relayed(first)), second, second[0], second[1]);
  }

  /** A stream that is exhausted after such an attempt ends with the error page in the middle of a
      response that is not an error. */
  lemma ExhaustedInTheMiddle(a: Attempt)
    requires a.pick.Some? && Retried(a) && a.ops == [WriteHeader(200), Op.Write([1])]
    ensures Calls([a], 1, 0, {}) == Course(1, false)
    ensures SeenOf(TakeAll(UNTOUCHED, Served([a], Course(1, false), true))) ==
            Response(200, map[], [1] + (Encoded(EXHAUSTED.text) + [LF]))
  {
    OneAttempt(a);
    TakeTwo(UNTOUCHED, a.ops, a.ops[0], a.ops[1]);
  }

  lemma OneAttempt(a: Attempt)
    ensures TakeAll(UNTOUCHED, Served([a], Course(1, false), true)) ==
            Take(TakeAll(UNTOUCHED, Relayed(a.ops)), EXHAUSTED)
  {
    var attempts, c := [a], Course(1, false);
    SplitsOwn(attempts, c);
    LiveOfOne(a);
    assert Abandoned(attempts, c) == [a];
    TakeMore(UNTOUCHED, Relayed(a.ops), EXHAUSTED);
  }
}
