/** The development proxy: one request, tried on one account after the other. */
module Failover {
  import opened Bytes
  import opened Outcomes
  import opened StreamChunks
  import opened HttpResponse
  import opened AccountStore
  import opened Scheduler

  // ---- What happens to a request ----

  /** One turn of the retry loop as the plugin, the scheduler and the account list make it: the account
      selected for it, what the plugin does with its writer, and the verdict it returns. Without a
      scheduler there is no policy. */
  datatype Attempt = Attempt(pick: Option<Account>, ops: seq<Op>, outcome: Outcome, upstreamHeaders: Headers,
                             error: Option<string>, policy: Option<Policy>)

  predicate Retried(a: Attempt) {
    a.policy.Some? && Retryable(a.policy.value, a.outcome.kind, a.error.Some?)
  }

  /** A turn is given up for another account exactly when there is a scheduler that shares the work and
      the plugin failed or its verdict is of a kind that asks for another account; the scope of the
      verdict plays no part. */
  lemma RetriedMeans(a: Attempt)
    ensures Retried(a) <==>
            a.policy == Some(WeightedRR)
            && (a.error.Some? || IsAccountFault(a.outcome.kind) || a.outcome.kind == UPSTREAM_TRANSIENT)
  {
  }

  const NO_ACCOUNTS := ErrorPage(503, "no accounts configured")
  const UNREADABLE := ErrorPage(400, "read body failed")
  const EXHAUSTED := ErrorPage(503, "all accounts exhausted")

  function ErrorPage(code: int, error: string): Sent {
    Page(code, "{\"error\":\"" + error + "\"}")
  }

  /** The pages as a client gets them. */
  lemma PagesAre()
    ensures NO_ACCOUNTS == Page(503, "{\"error\":\"" + "no accounts configured" + "\"}")
    ensures UNREADABLE == Page(400, "{\"error\":\"" + "read body failed" + "\"}")
    ensures EXHAUSTED == Page(503, "{\"error\":\"" + "all accounts exhausted" + "\"}")
  {
  }

  class Client {
    var log: seq<Sent>

    constructor ()
      ensures log == []
    {
      log := [];
    }

    method Send(s: Sent)
      modifies this
      ensures log == old(log) + [s]
    {
      log := log + [s];
    }

    method Relay(ops: seq<Op>)
      modifies this
      ensures log == old(log) + Relayed(ops)
    {
      for i := 0 to |ops|
        invariant log == old(log) + Relayed(ops[..i])
      {
        assert ops[..i + 1][..i] == ops[..i];
        log := log + [Passed(ops[i])];
      }
      assert ops[..|ops|] == ops;
    }
  }

  function Relayed(ops: seq<Op>): seq<Sent> {
    if ops == [] then [] else Relayed(ops[..|ops| - 1]) + [Passed(ops[|ops| - 1])]
  }

  // ---- The buffer of an attempt that is not a stream ----

  /** The last status given to WriteHeader, or 0. */
  function LastCode(ops: seq<Op>): int {
    if ops == [] then 0
    else if ops[|ops| - 1].WriteHeader? then ops[|ops| - 1].code
    else LastCode(ops[..|ops| - 1])
  }

  /** The status is that of the last WriteHeader, if there was one. */
  lemma {:induction false} LastCodeIs(ops: seq<Op>, i: nat)
    requires i <= |ops| && forall k :: i <= k < |ops| ==> !ops[k].WriteHeader?
    ensures i == 0 ==> LastCode(ops) == 0
    ensures i > 0 && ops[i - 1].WriteHeader? ==> LastCode(ops) == ops[i - 1].code
    decreases |ops|
  {
    if i < |ops| {
      LastCodeIs(ops[..|ops| - 1], i);
    }
  }

  class DevBufferWriter {
    var headers: Headers
    var code: int
    var body: seq<byte>

    ghost predicate Holds(ops: seq<Op>)
      reads this
    {
      headers == LastHeaders(ops) && code == LastCode(ops) && body == Body(ops)
    }

    constructor ()
      ensures Holds([])
    {
      headers, code, body := map[], 0, [];
    }

    method Perform(op: Op, ghost before: seq<Op>)
      requires Holds(before)
      modifies this
      ensures Holds(before + [op])
    {
      assert (before + [op])[..|before|] == before;
      match op
      case WriteHeader(c) => code := c;
      case Write(data) => body := body + data;
      case BeginCompletion =>
      case _ => headers := Touched(headers, op);
    }

    method PerformAll(ops: seq<Op>)
      requires Holds([])
      modifies this
      ensures Holds(ops)
    {
      for i := 0 to |ops|
        invariant Holds(ops[..i])
      {
        assert ops[..i] + [ops[i]] == ops[..i + 1];
        Perform(ops[i], ops[..i]);
      }
      assert ops[..|ops|] == ops;
    }
  }

  // ---- The answer made of an outcome and a buffer ----

  function AnswerStatus(a: Attempt): int {
    if a.outcome.upstreamStatus != 0 then a.outcome.upstreamStatus
    else if LastCode(a.ops) > 0 then LastCode(a.ops)
    else STATUS_OK
  }

  function HeadersOf(a: Attempt): Headers {
    if a.upstreamHeaders != map[] then a.upstreamHeaders else LastHeaders(a.ops)
  }

  function BodyOf(a: Attempt): seq<byte> {
    if a.outcome.upstreamBody != [] then a.outcome.upstreamBody else Body(a.ops)
  }

  function Answer(a: Attempt): seq<Sent> {
    [Head(AnswerStatus(a), HeadersOf(a))] + if BodyOf(a) == [] then [] else [Payload(BodyOf(a))]
  }

  /** Whatever the verdict says of the upstream's answer goes first; the buffer fills in what it leaves
      open, and a status that neither gives is 200. */
  lemma VerdictGoesFirst(a: Attempt)
    ensures a.outcome.upstreamStatus != 0 ==> AnswerStatus(a) == a.outcome.upstreamStatus
    ensures a.outcome.upstreamStatus == 0 && LastCode(a.ops) > 0 ==> AnswerStatus(a) == LastCode(a.ops)
    ensures a.outcome.upstreamStatus == 0 && LastCode(a.ops) <= 0 ==> AnswerStatus(a) == 200
    ensures a.upstreamHeaders != map[] ==> HeadersOf(a) == a.upstreamHeaders
    ensures a.upstreamHeaders == map[] ==> HeadersOf(a) == LastHeaders(a.ops)
    ensures a.outcome.upstreamBody != [] ==> BodyOf(a) == a.outcome.upstreamBody
    ensures a.outcome.upstreamBody == [] ==> BodyOf(a) == Body(a.ops)
  {
  }

  method WriteForwardOutcome(w: Client, a: Attempt, buffered: DevBufferWriter)
    requires buffered.Holds(a.ops)
    modifies w
    ensures w.log == old(w.log) + Answer(a)
  {
    var statusCode, headers, body := a.outcome.upstreamStatus, a.upstreamHeaders, a.outcome.upstreamBody;
    if statusCode == 0 && buffered.code > 0 {
      statusCode := buffered.code;
    }
    if |headers| == 0 {
      headers := buffered.headers;
    }
    if |body| == 0 && |buffered.body| > 0 {
      body := buffered.body;
    }
    if statusCode == 0 {
      statusCode := STATUS_OK;
    }
    w.Send(Head(statusCode, headers));
    if |body| != 0 {
      w.Send(Payload(body));
    }
  }

  // ---- The loop ----

  /** How many attempts call the plugin, and whether the last of them is final. */
  datatype Course = Course(calls: nat, final: bool)

  /** The course of the loop from the k-th attempt on. */
  function Calls(attempts: seq<Attempt>, max: nat, k: nat, tried: set<int>): (r: Course)
    requires max <= |attempts| && k <= max
    ensures k <= r.calls <= max && (r.final ==> k < r.calls)
    decreases max - k
  {
    if k == max || attempts[k].pick.None? || (k > 0 && attempts[k].pick.value.id in tried) then Course(k, false)
    else if Retried(attempts[k]) then Calls(attempts, max, k + 1, tried + {attempts[k].pick.value.id})
    else Course(k + 1, true)
  }

  /** What one attempt sends while it is made. */
  function Live(a: Attempt, stream: bool): seq<Sent> {
    if stream then Relayed(a.ops) else []
  }

  /** What the final attempt adds once it has returned. */
  function Closing(a: Attempt, stream: bool): seq<Sent> {
    if a.error.Some? && a.outcome.upstreamStatus == 0 then [ErrorPage(502, a.error.value)]
    else if stream then [] else Answer(a)
  }

  /** The final attempt is answered with its error if it has one and its verdict knows of no status; else,
      outside a stream, with verdict and buffer. */
  lemma ClosesWith(a: Attempt, stream: bool)
    ensures a.error.Some? && a.outcome.upstreamStatus == 0 ==>
              Closing(a, stream) == [Page(502, "{\"error\":\"" + a.error.value + "\"}")]
    ensures a.error.None? || a.outcome.upstreamStatus != 0 ==> Closing(a, stream) == if stream then [] else Answer(a)
  {
  }

  function AllLive(attempts: seq<Attempt>, stream: bool): seq<Sent> {
    if attempts == [] then []
    else AllLive(attempts[..|attempts| - 1], stream) + Live(attempts[|attempts| - 1], stream)
  }

  /** What the client gets of a request that takes this course. */
  function Served(attempts: seq<Attempt>, c: Course, stream: bool): seq<Sent>
    requires c.calls <= |attempts| && (c.final ==> c.calls > 0)
  {
    AllLive(attempts[..c.calls], stream) + if c.final then Closing(attempts[c.calls - 1], stream) else [EXHAUSTED]
  }

  /** What is done about an account: the plugin is called with it, and the scheduler is told the verdict. */
  datatype Deed = Called(account: Account) | Reported(id: int, kind: Kind, retryAfter: int)

  function DeedsOf(a: Attempt): seq<Deed> {
    if a.pick.None? then []
    else if a.policy.None? then [Called(a.pick.value)]
    else [Called(a.pick.value), Reported(a.pick.value.id, a.outcome.kind, a.outcome.retryAfter)]
  }

  function AllDeeds(attempts: seq<Attempt>): seq<Deed> {
    if attempts == [] then [] else AllDeeds(attempts[..|attempts| - 1]) + DeedsOf(attempts[|attempts| - 1])
  }

  method HandleHTTP(w: Client, readable: bool, stream: bool, listed: nat, attempts: seq<Attempt>)
    returns (deeds: seq<Deed>)
    requires |attempts| >= Max(1, listed) && w.log == []
    modifies w
    ensures attempts[0].pick.None? ==> w.log == [NO_ACCOUNTS] && deeds == []
    ensures attempts[0].pick.Some? && !readable ==> w.log == [UNREADABLE] && deeds == []
    ensures attempts[0].pick.Some? && readable ==>
              var c := Calls(attempts, Max(1, listed), 0, {});
              w.log == Served(attempts, c, stream) && deeds == AllDeeds(attempts[..c.calls])
  {
    var account := attempts[0].pick;
    if account.None? {
      w.Send(NO_ACCOUNTS);
      return [];
    }
    if !readable {
      w.Send(UNREADABLE);
      return [];
    }
    var maxAttempts := if listed <= 0 then 1 else listed;
    deeds := Attempts(w, stream, maxAttempts, attempts);
  }

  /** Where a request stands after `k` calls. */
  ghost predicate After(attempts: seq<Attempt>, k: nat, stream: bool, log: seq<Sent>, deeds: seq<Deed>)
    requires k <= |attempts|
  {
    log == AllLive(attempts[..k], stream) && deeds == AllDeeds(attempts[..k])
  }

  lemma AfterOneMore(attempts: seq<Attempt>, k: nat, stream: bool, log: seq<Sent>, deeds: seq<Deed>)
    requires k < |attempts| && After(attempts, k, stream, log, deeds)
    ensures After(attempts, k + 1, stream, log + Live(attempts[k], stream), deeds + DeedsOf(attempts[k]))
  {
    LiveAppend(attempts, k, stream);
  }

  method Attempts(w: Client, stream: bool, max: nat, attempts: seq<Attempt>) returns (deeds: seq<Deed>)
    requires 1 <= max <= |attempts| && w.log == [] && attempts[0].pick.Some?
    modifies w
    ensures w.log == Served(attempts, Calls(attempts, max, 0, {}), stream)
    ensures deeds == AllDeeds(attempts[..Calls(attempts, max, 0, {}).calls])
  {
    deeds := [];
    var account := attempts[0].pick;
    var tried: set<int> := {};
    ghost var course := Calls(attempts, max, 0, {});
    var attempt := 0;
    while attempt < max
      invariant 0 <= attempt <= max && account.Some? && (attempt == 0 ==> account == attempts[0].pick)
      invariant After(attempts, attempt, stream, w.log, deeds)
      invariant Calls(attempts, max, attempt, tried) == course
    {
      if attempt > 0 {
        account := attempts[attempt].pick;
        if account.None? || account.value.id in tried {
          break;
        }
      }
      tried := tried + {account.value.id};
      AfterOneMore(attempts, attempt, stream, w.log, deeds);
      var answered, done := Try(w, attempts[attempt], stream);
      deeds := deeds + done;
      attempt := attempt + 1;
      if answered {
        assert course == Course(attempt, true);
        return;
      }
    }
    assert course == Course(attempt, false);
    w.Send(EXHAUSTED);
  }

  lemma {:induction false} LiveAppend(attempts: seq<Attempt>, k: nat, stream: bool)
    requires k < |attempts|
    ensures AllLive(attempts[..k + 1], stream) == AllLive(attempts[..k], stream) + Live(attempts[k], stream)
    ensures AllDeeds(attempts[..k + 1]) == AllDeeds(attempts[..k]) + DeedsOf(attempts[k])
  {
    assert attempts[..k + 1][..k] == attempts[..k];
  }

  /** One attempt; true if it ends the request. */
  method Try(w: Client, a: Attempt, stream: bool) returns (final: bool, deeds: seq<Deed>)
    requires a.pick.Some?
    modifies w
    ensures deeds == DeedsOf(a)
    ensures final <==> !Retried(a)
    ensures final ==> w.log == old(w.log) + Live(a, stream) + Closing(a, stream)
    ensures !final ==> w.log == old(w.log) + Live(a, stream)
  {
    var buffered := new DevBufferWriter();
    deeds := [Called(a.pick.value)];
    if stream {
      w.Relay(a.ops);
    } else {
      buffered.PerformAll(a.ops);
    }
    if a.policy.Some? {
      deeds := deeds + [Reported(a.pick.value.id, a.outcome.kind, a.outcome.retryAfter)];
    }
    if Retried(a) {
      return false, deeds;
    }
    if a.error.Some? && a.outcome.upstreamStatus == 0 {
      w.Send(ErrorPage(502, a.error.value));
      return true, deeds;
    }
    if !stream {
      WriteForwardOutcome(w, a, buffered);
    }
    return true, deeds;
  }

  // ---- What the loop guarantees ----

  /** The accounts called from the k-th attempt on: each was selected for its attempt, none was tried
      before, and the final attempt is the only one that is not abandoned. */
  lemma {:induction false} CallsAre(attempts: seq<Attempt>, max: nat, k: nat, tried: set<int>, i: nat)
    requires k <= max <= |attempts| && k <= i < Calls(attempts, max, k, tried).calls && (k == 0 ==> tried == {})
    ensures attempts[i].pick.Some? && attempts[i].pick.value.id !in tried
    ensures var c := Calls(attempts, max, k, tried); !Retried(attempts[i]) <==> c.final && i == c.calls - 1
    decreases max - k
  {
    if Retried(attempts[k]) && k < i {
      CallsAre(attempts, max, k + 1, tried + {attempts[k].pick.value.id}, i);
    }
  }

  lemma {:induction false} CallsDiffer(attempts: seq<Attempt>, max: nat, k: nat, tried: set<int>, i: nat, j: nat)
    requires k <= max <= |attempts| && k <= i < j < Calls(attempts, max, k, tried).calls
    requires attempts[i].pick.Some? && attempts[j].pick.Some?
    ensures attempts[i].pick.value.id != attempts[j].pick.value.id
    decreases max - k
  {
    var more := tried + {attempts[k].pick.value.id};
    if i == k {
      CallsAre(attempts, max, k + 1, more, j);
    } else {
      CallsDiffer(attempts, max, k + 1, more, i, j);
    }
  }

  /** A request is tried at most once for each account listed when it began, and never twice with the
      same account, however the selections and the list change meanwhile. */
  lemma {:induction false} NoAccountTwice(attempts: seq<Attempt>, max: nat)
    requires 1 <= max <= |attempts| && attempts[0].pick.Some?
    ensures var calls := CalledIn(AllDeeds(attempts[..Calls(attempts, max, 0, {}).calls]));
            1 <= |calls| <= max && forall i, j :: 0 <= i < j < |calls| ==> calls[i].id != calls[j].id
  {
    var n := Calls(attempts, max, 0, {}).calls;
    forall i | 0 <= i < n
      ensures attempts[i].pick.Some?
    {
      CallsAre(attempts, max, 0, {}, i);
    }
    CalledArePicked(attempts[..n]);
    forall i, j | 0 <= i < j < n
      ensures attempts[i].pick.value.id != attempts[j].pick.value.id
    {
      CallsDiffer(attempts, max, 0, {}, i, j);
    }
  }

  /** The accounts the plugin was called with, in order. */
  function CalledIn(deeds: seq<Deed>): seq<Account> {
    if deeds == [] then []
    else
      var last := deeds[|deeds| - 1];
      CalledIn(deeds[..|deeds| - 1]) + if last.Called? then [last.account] else []
  }

  lemma {:induction false} CalledAppend(deeds: seq<Deed>, a: Attempt)
    requires a.pick.Some?
    ensures CalledIn(deeds + DeedsOf(a)) == CalledIn(deeds) + [a.pick.value]
  {
    var one := deeds + [Called(a.pick.value)];
    assert one[..|deeds|] == deeds;
    if a.policy.Some? {
      var two := one + [Reported(a.pick.value.id, a.outcome.kind, a.outcome.retryAfter)];
      assert two == deeds + DeedsOf(a) && two[..|one|] == one;
    }
  }

  lemma {:induction false} CalledArePicked(attempts: seq<Attempt>)
    requires forall i :: 0 <= i < |attempts| ==> attempts[i].pick.Some?
    ensures |CalledIn(AllDeeds(attempts))| == |attempts|
    ensures forall i :: 0 <= i < |attempts| ==> CalledIn(AllDeeds(attempts))[i] == attempts[i].pick.value
    decreases |attempts|
  {
    if attempts != [] {
      var front := attempts[..|attempts| - 1];
      CalledArePicked(front);
      CalledAppend(AllDeeds(front), attempts[|attempts| - 1]);
    }
  }

  /** With a scheduler, every call is followed by the report of its own verdict on its own account,
      whether the attempt is abandoned or not, and nothing else is done. */
  lemma {:induction false} EveryVerdictIsReported(attempts: seq<Attempt>)
    requires forall i :: 0 <= i < |attempts| ==> attempts[i].pick.Some? && attempts[i].policy.Some?
    ensures |AllDeeds(attempts)| == 2 * |attempts|
    ensures forall i :: 0 <= i < |attempts| ==>
              var a := attempts[i];
              && AllDeeds(attempts)[2 * i] == Called(a.pick.value)
              && AllDeeds(attempts)[2 * i + 1] == Reported(a.pick.value.id, a.outcome.kind, a.outcome.retryAfter)
    decreases |attempts|
  {
    if attempts != [] {
      EveryVerdictIsReported(attempts[..|attempts| - 1]);
    }
  }

  /** Without one there is nobody to report to. */
  lemma {:induction false} NothingIsReported(attempts: seq<Attempt>)
    requires forall i :: 0 <= i < |attempts| ==> attempts[i].pick.Some? && attempts[i].policy.None?
    ensures |AllDeeds(attempts)| == |attempts|
    ensures forall i :: 0 <= i < |attempts| ==> AllDeeds(attempts)[i] == Called(attempts[i].pick.value)
    decreases |attempts|
  {
    if attempts != [] {
      NothingIsReported(attempts[..|attempts| - 1]);
    }
  }

  predicate SamePick(a: Attempt, b: Attempt) {
    a.pick.Some? && b.pick.Some? && a.pick.value.id == b.pick.value.id
  }

  /** A request ends without an answer only when its attempts are used up, no account is selected, or
      one that it has tried already is selected again. */
  lemma {:induction false} ExhaustedMeans(attempts: seq<Attempt>, max: nat, k: nat, tried: set<int>)
    requires k <= max <= |attempts| && !Calls(attempts, max, k, tried).final
    ensures var n := Calls(attempts, max, k, tried).calls;
            || n == max || attempts[n].pick.None? || attempts[n].pick.value.id in tried
            || exists i :: k <= i < n && SamePick(attempts[i], attempts[n])
    decreases max - k
  {
    if k < Calls(attempts, max, k, tried).calls {
      ExhaustedMeans(attempts, max, k + 1, tried + {attempts[k].pick.value.id});
      var n := Calls(attempts, max, k, tried).calls;
      if n < max && attempts[n].pick.Some? && attempts[n].pick.value.id == attempts[k].pick.value.id {
        assert SamePick(attempts[k], attempts[n]);
      }
    }
  }

  /** Two requests whose turns agree on what steers the loop. */
  ghost predicate SteeredAlike(a: seq<Attempt>, b: seq<Attempt>) {
    |a| == |b| && forall i :: 0 <= i < |a| ==> a[i].pick == b[i].pick && (Retried(a[i]) <==> Retried(b[i]))
  }

  lemma {:induction false} CallsAlike(a: seq<Attempt>, b: seq<Attempt>, max: nat, k: nat, tried: set<int>)
    requires SteeredAlike(a, b) && max <= |a| && k <= max
    ensures Calls(a, max, k, tried) == Calls(b, max, k, tried)
    decreases max - k
  {
    if k < max && a[k].pick.Some? && Retried(a[k]) {
      CallsAlike(a, b, max, k + 1, tried + {a[k].pick.value.id});
    }
  }

  lemma {:induction false} NothingLive(attempts: seq<Attempt>)
    ensures AllLive(attempts, false) == []
  {
    if attempts != [] {
      NothingLive(attempts[..|attempts| - 1]);
    }
  }

  /** One response: a page, or a head and then at most one body. */
  predicate OneResponse(log: seq<Sent>) {
    || (|log| == 1 && (log[0].Page? || log[0].Head?))
    || (|log| == 2 && log[0].Head? && log[1].Payload? && log[1].data != [])
  }

  /** Outside a stream the client gets exactly one response, all of it from the final attempt: whatever
      the abandoned attempts wrote, returned or failed with, they leave no trace in it. */
  lemma {:induction false} NoBytesFromAbandoned(a: seq<Attempt>, b: seq<Attempt>, max: nat)
    requires SteeredAlike(a, b) && 1 <= max <= |a|
    requires var c := Calls(a, max, 0, {}); c.final ==> a[c.calls - 1] == b[c.calls - 1]
    ensures Calls(a, max, 0, {}) == Calls(b, max, 0, {})
    ensures var c := Calls(a, max, 0, {});
            Served(a, c, false) == Served(b, c, false) && OneResponse(Served(a, c, false))
  {
    CallsAlike(a, b, max, 0, {});
    NothingLive(a[..Calls(a, max, 0, {}).calls]);
    NothingLive(b[..Calls(a, max, 0, {}).calls]);
  }

  // ---- The response that a client gets to see ----

  /** The one response of an answer: its status unless that is an informational one, its headers, and
      its body unless the status has none. A status out of range makes the client's writer panic, and
      then there is no response at all. */
  lemma AnswerIs(a: Attempt)
    ensures SeenOf(TakeAll(UNTOUCHED, Answer(a))) ==
            if ValidStatus(AnswerStatus(a)) then
              var code := if Informational(AnswerStatus(a)) then STATUS_OK else AnswerStatus(a);
              Response(code, Lines(HeadersOf(a)), if BodyAllowed(code) then BodyOf(a) else [])
            else NoResponse
  {
    var head := Head(AnswerStatus(a), HeadersOf(a));
    AddToNone(HeadersOf(a));
    assert Lines(Lines(HeadersOf(a))) == Lines(HeadersOf(a));
    TakeOne(UNTOUCHED, head);
    if BodyOf(a) == [] {
      assert Answer(a) == [head];
    } else {
      assert Answer(a) == [head] + [Payload(BodyOf(a))];
      TakeConcat(UNTOUCHED, [head], [Payload(BodyOf(a))]);
      TakeOne(Take(UNTOUCHED, head), Payload(BodyOf(a)));
      assert [] + BodyOf(a) == BodyOf(a);
    }
  }

  /** An upstream status of 42 leaves the client without a response. */
  lemma OddStatusIsUnanswered(a: Attempt)
    requires a.outcome.upstreamStatus == 42
    ensures SeenOf(TakeAll(UNTOUCHED, Closing(a, false))) == NoResponse
  {
    AnswerIs(a);
  }

  lemma PageIs(code: int, text: string)
    requires code == 502 || code == 503
    ensures SeenOf(TakeAll(UNTOUCHED, [Page(code, text)])) ==
            Response(code, Lines(PageHeaders(map[])), Encoded(text) + [LF])
  {
    TakeOne(UNTOUCHED, Page(code, text));
    assert [] + (Encoded(text) + [LF]) == Encoded(text) + [LF];
  }

  /** The final attempt is answered with the status that its verdict or its plugin gave. */
  predicate AnsweredBy(a: Attempt) {
    !(a.error.Some? && a.outcome.upstreamStatus == 0)
  }

  lemma ClosingIs(a: Attempt)
    ensures SeenOf(TakeAll(UNTOUCHED, Closing(a, false))) == NoResponse
       <==> AnsweredBy(a) && !ValidStatus(AnswerStatus(a))
  {
    if AnsweredBy(a) {
      AnswerIs(a);
    } else {
      PageIs(502, ErrorPage(502, a.error.value).text);
    }
  }

  /** Outside a stream a request ends without any response exactly when its final attempt is answered
      with a status out of range. */
  lemma {:induction false} UnansweredMeans(attempts: seq<Attempt>, max: nat)
    requires 1 <= max <= |attempts|
    ensures var c := Calls(attempts, max, 0, {});
            SeenOf(TakeAll(UNTOUCHED, Served(attempts, c, false))) == NoResponse <==>
            c.final && AnsweredBy(attempts[c.calls - 1]) && !ValidStatus(AnswerStatus(attempts[c.calls - 1]))
  {
    var c := Calls(attempts, max, 0, {});
    ServedUnstreamed(attempts, c);
    if c.final {
      ClosingIs(attempts[c.calls - 1]);
    } else {
      PageIs(503, EXHAUSTED.text);
    }
  }

  lemma ServedUnstreamed(attempts: seq<Attempt>, c: Course)
    requires c.calls <= |attempts| && (c.final ==> c.calls > 0)
    ensures Served(attempts, c, false) == if c.final then Closing(attempts[c.calls - 1], false) else [EXHAUSTED]
  {
    NothingLive(attempts[..c.calls]);
  }
}
