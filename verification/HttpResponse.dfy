/**
 * The client's own response writer, as net/http behaves towards a handler: one live header map, a
 * response that is committed once, and the response that a client gets to see of it in the end.
 */
module HttpResponse {
  import opened Bytes
  import opened StreamChunks

  /** What reaches that writer: an error page, a head and a body of the proxy's own, or, in a stream,
      whatever a plugin does with it. */
  datatype Sent =
    | Page(code: int, text: string)
    | Head(code: int, headers: Headers)
    | Payload(data: seq<byte>)
    | Passed(op: Op)

  /** Headers as they stand, what was fixed at the commit, and whether a call has panicked. */
  datatype Writer = Writer(headers: Headers, committed: bool, code: int, sentHeaders: Headers, body: seq<byte>,
                           panicked: bool)

  const UNTOUCHED := Writer(map[], false, 0, map[], [], false)

  /** Any other status makes an uncommitted writer panic. */
  predicate ValidStatus(code: int) {
    100 <= code <= 999
  }

  /** These statuses are sent ahead of the response and do not commit it. */
  predicate Informational(code: int) {
    100 <= code <= 199 && code != 101
  }

  /** A response of another status has no body: what is written to it is refused. */
  predicate BodyAllowed(code: int) {
    !(100 <= code <= 199) && code != 204 && code != 304
  }

  function Commit(w: Writer, code: int): Writer {
    if w.committed then w else w.(committed := true, code := code, sentHeaders := w.headers)
  }

  function CommitStatus(w: Writer, code: int): Writer {
    if w.committed then w
    else if !ValidStatus(code) then w.(panicked := true)
    else if Informational(code) then w
    else Commit(w, code)
  }

  function Append(w: Writer, data: seq<byte>): Writer {
    var c := Commit(w, STATUS_OK);
    if BodyAllowed(c.code) then c.(body := c.body + data) else c
  }

  function Encoded(text: string): seq<byte> {
    seq(|text|, i requires 0 <= i < |text| => text[i] as int % 256)
  }

  /** Text of one-byte characters is written as those bytes. */
  lemma EncodedIs(text: string, i: nat)
    requires i < |text| && text[i] as int < 256
    ensures |Encoded(text)| == |text| && Encoded(text)[i] == text[i] as int
  {
  }

  const CONTENT_LENGTH := "Content-Length"
  const CONTENT_TYPE := "Content-Type"
  const CONTENT_TYPE_OPTIONS := "X-Content-Type-Options"

  /** An error page puts its own content headers in place of those there are. */
  function PageHeaders(headers: Headers): Headers {
    (headers - {CONTENT_LENGTH})[CONTENT_TYPE := ["text/plain; charset=utf-8"]][CONTENT_TYPE_OPTIONS := ["nosniff"]]
  }

  /** The plugin's completion mark means nothing to this writer, a flush does what an empty Write does,
      and a panic ends the request. */
  function Take(w: Writer, s: Sent): Writer {
    if w.panicked then w
    else
      match s
      case Page(code, text) =>
        var c := CommitStatus(w.(headers := PageHeaders(w.headers)), code);
        if c.panicked then c else Append(c, Encoded(text) + [LF])
      case Head(code, headers) => CommitStatus(w.(headers := AddAll(w.headers, headers)), code)
      case Payload(data) => Append(w, data)
      case Passed(WriteHeader(code)) => CommitStatus(w, code)
      case Passed(Write(data)) => Append(w, data)
      case Passed(op) => w.(headers := Touched(w.headers, op))
  }

  function TakeAll(w: Writer, log: seq<Sent>): Writer {
    if log == [] then w else Take(TakeAll(w, log[..|log| - 1]), log[|log| - 1])
  }

  datatype Seen = Response(code: int, headers: Headers, body: seq<byte>) | NoResponse

  /** The headers that are, or would be, those of the response. */
  function Shown(w: Writer): Headers {
    if w.committed then w.sentHeaders else w.headers
  }

  /** What is committed stays committed, and what is not is committed when the handler returns; after
      a panic, which comes before the commit, nothing is sent. */
  function SeenOf(w: Writer): Seen {
    if w.panicked then NoResponse else Response(if w.committed then w.code else STATUS_OK, Lines(Shown(w)), w.body)
  }

  lemma {:induction false} TakeConcat(w: Writer, a: seq<Sent>, b: seq<Sent>)
    ensures TakeAll(w, a + b) == TakeAll(TakeAll(w, a), b)
    decreases |b|
  {
    if b == [] {
      assert a + b == a;
    } else {
      assert (a + b)[..|a + b| - 1] == a + b[..|b| - 1];
      TakeConcat(w, a, b[..|b| - 1]);
    }
  }

  lemma {:induction false} TakeOne(w: Writer, s: Sent)
    ensures TakeAll(w, [s]) == Take(w, s)
  {
    var log := [s];
    assert log[..0] == [];
    assert TakeAll(w, log[..0]) == w;
  }

  lemma {:induction false} TakeMore(w: Writer, log: seq<Sent>, s: Sent)
    ensures TakeAll(w, log + [s]) == Take(TakeAll(w, log), s)
  {
    assert (log + [s])[..|log|] == log;
  }

  /** What a client sees of a handler that writes a status and some data, for every status. */
  lemma StatusesAre(code: int, data: seq<byte>)
    ensures SeenOf(Take(Take(UNTOUCHED, Passed(WriteHeader(code))), Passed(Op.Write(data)))) ==
            if code < 100 || code > 999 then NoResponse
            else if code == 101 || code == 204 || code == 304 then Response(code, map[], [])
            else if code < 200 then Response(200, map[], data)
            else Response(code, map[], data)
  {
    assert [] + data == data;
  }

  /** The headers of an error page: three of its own, and for the rest those that were there. */
  lemma PageHeadersAre(headers: Headers, key: string)
    ensures ValuesOf(PageHeaders(headers), "Content-Length") == []
    ensures ValuesOf(PageHeaders(headers), "Content-Type") == ["text/plain; charset=utf-8"]
    ensures ValuesOf(PageHeaders(headers), "X-Content-Type-Options") == ["nosniff"]
    ensures key !in {"Content-Length", "Content-Type", "X-Content-Type-Options"} ==>
              ValuesOf(PageHeaders(headers), key) == ValuesOf(headers, key)
  {
    assert |CONTENT_LENGTH| == 14 && |CONTENT_TYPE| == 12 && |CONTENT_TYPE_OPTIONS| == 22;
  }

  // ---- The body ----

  /** The bytes that one entry writes. */
  function BytesIn(s: Sent): seq<byte> {
    match s
    case Page(_, text) => Encoded(text) + [LF]
    case Payload(data) => data
    case Passed(Write(data)) => data
    case _ => []
  }

  function Written(log: seq<Sent>): seq<byte> {
    if log == [] then [] else Written(log[..|log| - 1]) + BytesIn(log[|log| - 1])
  }

  /** A writer that was only used as a handler can use it: no body before the commit, and none beside
      a status that has no body; a panic only before the commit. */
  ghost predicate Sound(w: Writer) {
    && (w.committed && !BodyAllowed(w.code) ==> w.body == [])
    && (!w.committed ==> w.body == [] && w.code == 0 && w.sentHeaders == map[])
    && (w.panicked ==> !w.committed)
  }

  lemma TakeIsSound(w: Writer, s: Sent)
    requires Sound(w)
    ensures Sound(Take(w, s))
    ensures !Take(w, s).panicked ==>
              Take(w, s).body == if BodyAllowed(Take(w, s).code) then w.body + BytesIn(s) else []
  {
    assert w.body + [] == w.body;
  }

  lemma StepWrites(had: seq<byte>, w: Writer, before: seq<byte>, s: Sent)
    requires Sound(w)
    requires !w.panicked ==> w.body == if BodyAllowed(w.code) then had + before else []
    ensures Sound(Take(w, s))
    ensures var r := Take(w, s);
            !r.panicked ==> r.body == if BodyAllowed(r.code) then had + (before + BytesIn(s)) else []
  {
    TakeIsSound(w, s);
    assert had + before + BytesIn(s) == had + (before + BytesIn(s));
  }

  /** Every byte written is in the body, in order, unless the response's status has no body. */
  lemma {:induction false} BodyIsWritten(w: Writer, log: seq<Sent>)
    requires Sound(w)
    ensures Sound(TakeAll(w, log))
    ensures var r := TakeAll(w, log);
            !r.panicked ==> r.body == if BodyAllowed(r.code) then w.body + Written(log) else []
    decreases |log|
  {
    if log == [] {
      assert w.body + [] == w.body;
    } else {
      var front, last := log[..|log| - 1], log[|log| - 1];
      BodyIsWritten(w, front);
      StepWrites(w.body, TakeAll(w, front), Written(front), last);
    }
  }

  // ---- What came before ----

  /** Nothing is committed and nothing has panicked: a handler may still choose the response. */
  predicate Undecided(w: Writer) {
    !w.committed && !w.panicked
  }

  /** One entry sets or deletes the header, so that it no longer matters what was there. */
  predicate Rewrites(s: Sent, key: string) {
    match s
    case Page(_, _) => key == CONTENT_LENGTH || key == CONTENT_TYPE || key == CONTENT_TYPE_OPTIONS
    case Passed(SetHeader(k, _)) => k == key
    case Passed(DelHeader(k)) => k == key
    case _ => false
  }

  /** A log sets or deletes the header while that still makes a difference. */
  predicate Resets(log: seq<Sent>, key: string) {
    log != [] &&
    var front := log[..|log| - 1];
    Resets(front, key) || (Undecided(TakeAll(UNTOUCHED, front)) && Rewrites(log[|log| - 1], key))
  }

  /** Two writers that differ in their headers only: `r` has what a log made of some headers, and `f`
      what it made of none. */
  ghost predicate Alike(r: Writer, f: Writer) {
    r.committed == f.committed && r.code == f.code && r.body == f.body && r.panicked == f.panicked
  }

  ghost function Inherited(left: Headers, reset: bool, key: string): seq<string> {
    if reset then [] else ValuesOf(left, key)
  }

  lemma CommitAlike(r: Writer, f: Writer, code: int)
    requires Alike(r, f)
    ensures Alike(CommitStatus(r, code), CommitStatus(f, code))
  {
  }

  lemma AppendAlike(r: Writer, f: Writer, data: seq<byte>)
    requires Alike(r, f)
    ensures Alike(Append(r, data), Append(f, data))
  {
  }

  lemma PageAlike(r: Writer, f: Writer, s: Sent)
    requires Alike(r, f) && s.Page?
    ensures Alike(Take(r, s), Take(f, s))
  {
    var pr, pf := r.(headers := PageHeaders(r.headers)), f.(headers := PageHeaders(f.headers));
    CommitAlike(pr, pf, s.code);
    AppendAlike(CommitStatus(pr, s.code), CommitStatus(pf, s.code), Encoded(s.text) + [LF]);
  }

  lemma OpAlike(r: Writer, f: Writer, s: Sent)
    requires Alike(r, f) && s.Passed?
    ensures Alike(Take(r, s), Take(f, s))
  {
    match s.op {
      case WriteHeader(code) => CommitAlike(r, f, code);
      case Write(data) => AppendAlike(r, f, data);
      case _ =>
    }
  }

  lemma StepAlike(r: Writer, f: Writer, s: Sent)
    requires Alike(r, f)
    ensures Alike(Take(r, s), Take(f, s))
  {
    match s {
      case Page(_, _) => PageAlike(r, f, s);
      case Head(code, headers) =>
        CommitAlike(r.(headers := AddAll(r.headers, headers)), f.(headers := AddAll(f.headers, headers)), code);
      case Payload(data) => AppendAlike(r, f, data);
      case Passed(_) => OpAlike(r, f, s);
    }
  }

  /** The live map after an entry, as long as nothing is decided. */
  function HeadersAfter(headers: Headers, s: Sent): Headers {
    match s
    case Page(_, _) => PageHeaders(headers)
    case Head(_, more) => AddAll(headers, more)
    case Payload(_) => headers
    case Passed(op) => Touched(headers, op)
  }

  lemma StepShows(w: Writer, s: Sent)
    ensures Shown(Take(w, s)) == if Undecided(w) then HeadersAfter(w.headers, s) else Shown(w)
  {
  }

  /** A header keeps what was there in front of its own values until it is rewritten. */
  lemma StepInherits(r: Headers, f: Headers, s: Sent, key: string, was: seq<string>)
    requires ValuesOf(r, key) == was + ValuesOf(f, key)
    ensures ValuesOf(HeadersAfter(r, s), key) ==
            (if Rewrites(s, key) then [] else was) + ValuesOf(HeadersAfter(f, s), key)
  {
    match s {
      case Head(_, more) => AddedInFront(was, ValuesOf(f, key), ValuesOf(more, key));
      case Passed(AddHeader(_, value)) => AddedInFront(was, ValuesOf(f, key), [value]);
      case _ =>
    }
  }

  lemma AddedInFront(was: seq<string>, own: seq<string>, more: seq<string>)
    ensures was + own + more == was + (own + more)
  {
  }

  /** On an undecided writer a log does what it does on an untouched one, except that every header it
      does not reset keeps the values that were there in front of its own. */
  lemma {:induction false} Inherits(w: Writer, log: seq<Sent>, key: string)
    requires Undecided(w) && Sound(w)
    ensures var r, f := TakeAll(w, log), TakeAll(UNTOUCHED, log);
            && Alike(r, f)
            && ValuesOf(Shown(r), key) == Inherited(w.headers, Resets(log, key), key) + ValuesOf(Shown(f), key)
    decreases |log|
  {
    if log == [] {
      assert ValuesOf(w.headers, key) + [] == ValuesOf(w.headers, key);
    } else {
      var front, last := log[..|log| - 1], log[|log| - 1];
      Inherits(w, front, key);
      var r, f := TakeAll(w, front), TakeAll(UNTOUCHED, front);
      StepAlike(r, f, last);
      StepShows(r, last);
      StepShows(f, last);
      if Undecided(f) {
        StepInherits(r.headers, f.headers, last, key, Inherited(w.headers, Resets(front, key), key));
      }
    }
  }

  /** On a committed writer a log only adds its bytes. */
  lemma {:induction false} CommittedStays(w: Writer, log: seq<Sent>)
    requires w.committed && Sound(w)
    ensures var r := TakeAll(w, log);
            r.committed && !r.panicked && r.code == w.code && r.sentHeaders == w.sentHeaders
    decreases |log|
  {
    if log != [] {
      CommittedStays(w, log[..|log| - 1]);
    }
  }

  lemma {:induction false} PanickedStays(w: Writer, log: seq<Sent>)
    requires w.panicked
    ensures TakeAll(w, log) == w
    decreases |log|
  {
    if log != [] {
      PanickedStays(w, log[..|log| - 1]);
    }
  }

  /** Every header left behind with values is reset. */
  ghost predicate ResetsAll(log: seq<Sent>, left: Headers) {
    forall key :: key in left && left[key] != [] ==> Resets(log, key)
  }

  /** What came before leaves no trace. It committed nothing, and every header it left behind is reset
      before the response is committed (or the response fails all the same); or it committed, without
      any body, the very status and headers that follow; or both end in a panic. */
  ghost predicate Traceless(before: Writer, own: seq<Sent>) {
    var alone := TakeAll(UNTOUCHED, own);
    if before.panicked then alone.panicked
    else if before.committed then
      !alone.panicked && before.body == []
      && SeenOf(alone).code == before.code && SeenOf(alone).headers == Lines(before.sentHeaders)
    else alone.panicked || ResetsAll(own, before.headers)
  }

  lemma {:induction false} SameIfTraceless(before: Writer, own: seq<Sent>)
    requires Sound(before)
    ensures SeenOf(TakeAll(before, own)) == SeenOf(TakeAll(UNTOUCHED, own)) <==> Traceless(before, own)
  {
    if before.panicked {
      PanickedStays(before, own);
    } else if before.committed {
      SameIfCommitted(before, own);
    } else {
      SameIfUndecided(before, own);
    }
  }

  lemma AddsNothing<T>(s: seq<T>, t: seq<T>)
    ensures s + t == t <==> s == []
  {
    if s != [] {
      assert |s + t| > |t|;
    }
  }

  lemma {:induction false} SameIfCommitted(before: Writer, own: seq<Sent>)
    requires Sound(before) && before.committed
    ensures SeenOf(TakeAll(before, own)) == SeenOf(TakeAll(UNTOUCHED, own)) <==> Traceless(before, own)
  {
    CommittedStays(before, own);
    BodyIsWritten(before, own);
    BodyIsWritten(UNTOUCHED, own);
    AddsNothing(before.body, Written(own));
    assert [] + Written(own) == Written(own);
  }

  lemma {:induction false} SameIfUndecided(before: Writer, own: seq<Sent>)
    requires Sound(before) && Undecided(before)
    ensures SeenOf(TakeAll(before, own)) == SeenOf(TakeAll(UNTOUCHED, own)) <==> Traceless(before, own)
  {
    var r, f := TakeAll(before, own), TakeAll(UNTOUCHED, own);
    Inherits(before, own, "");
    SameLines(Shown(r), Shown(f));
    forall key
      ensures ValuesOf(Shown(r), key) == ValuesOf(Shown(f), key)
         <==> Resets(own, key) || ValuesOf(before.headers, key) == []
    {
      Inherits(before, own, key);
      AddsNothing(Inherited(before.headers, Resets(own, key), key), ValuesOf(Shown(f), key));
    }
    assert ResetsAll(own, before.headers) <==>
           forall key :: Resets(own, key) || ValuesOf(before.headers, key) == [];
  }
}
