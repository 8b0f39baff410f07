/** The stream between plugin and Core: chunks, the record of what was sent, and the plugin's script. */
module StreamChunks {
  import opened Bytes
  import opened Outcomes

  type Headers = map<string, seq<string>>

  function ValuesOf(headers: Headers, key: string): seq<string> {
    if key in headers then headers[key] else []
  }

  /** The header lines a peer gets to see: a key without values has none. */
  function Lines(headers: Headers): Headers {
    map k | k in headers && headers[k] != [] :: headers[k]
  }

  /** Adding values one by one keeps what was there and never adds a key without values. */
  function AddAll(headers: Headers, more: Headers): Headers {
    map k | k in headers.Keys + Lines(more).Keys :: ValuesOf(headers, k) + ValuesOf(more, k)
  }

  lemma AddToNone(more: Headers)
    ensures AddAll(map[], more) == Lines(more)
  {
    assert forall k :: k in more ==> [] + more[k] == more[k];
  }

  lemma SameLines(a: Headers, b: Headers)
    ensures Lines(a) == Lines(b) <==> forall k :: ValuesOf(a, k) == ValuesOf(b, k)
  {
    assert forall k :: ValuesOf(Lines(a), k) == ValuesOf(a, k) && ValuesOf(Lines(b), k) == ValuesOf(b, k);
    if forall k :: ValuesOf(a, k) == ValuesOf(b, k) {
      assert forall k :: k in Lines(a) <==> ValuesOf(a, k) != [];
      assert forall k :: k in Lines(b) <==> ValuesOf(b, k) != [];
    }
  }

  datatype Chunk = Chunk(status: int, headers: Headers, data: seq<byte>, done: bool, final: Option<WireOutcome>)

  function DataChunk(data: seq<byte>): Chunk {
    Chunk(0, map[], data, false, None)
  }

  function Data(chunks: seq<Chunk>): seq<byte> {
    if chunks == [] then [] else Data(chunks[..|chunks| - 1]) + chunks[|chunks| - 1].data
  }

  lemma {:induction false} DataAppend(chunks: seq<Chunk>, c: Chunk)
    ensures Data(chunks + [c]) == Data(chunks) + c.data
  {
    assert (chunks + [c])[..|chunks|] == chunks;
  }

  // ---- What a plugin does with its writer ----

  /** Header() gives out the one live map, so a plugin changes headers key by key. */
  datatype Op =
    | SetHeader(key: string, values: seq<string>)
    | AddHeader(key: string, value: string)
    | DelHeader(key: string)
    | WriteHeader(code: int)
    | Write(data: seq<byte>)
    | BeginCompletion

  function Body(ops: seq<Op>): seq<byte> {
    if ops == [] then []
    else
      var last := ops[|ops| - 1];
      Body(ops[..|ops| - 1]) + if last.Write? then last.data else []
  }

  predicate Touches(op: Op) {
    op.Write? || op.WriteHeader?
  }

  /** The plugin called Write or WriteHeader at all. */
  predicate Responds(ops: seq<Op>) {
    ops != [] && (Responds(ops[..|ops| - 1]) || Touches(ops[|ops| - 1]))
  }

  /** The status of the first WriteHeader, unless a Write came before it; else 0. */
  function StatusCode(ops: seq<Op>): int {
    if ops == [] then 0
    else if Responds(ops[..|ops| - 1]) then StatusCode(ops[..|ops| - 1])
    else if ops[|ops| - 1].WriteHeader? then ops[|ops| - 1].code
    else 0
  }

  predicate TouchesHeaders(op: Op) {
    op.SetHeader? || op.AddHeader? || op.DelHeader?
  }

  function Touched(headers: Headers, op: Op): Headers {
    match op
    case SetHeader(key, values) => headers[key := values]
    case AddHeader(key, value) => headers[key := ValuesOf(headers, key) + [value]]
    case DelHeader(key) => headers - {key}
    case _ => headers
  }

  /** What an operation does to the values of each header: one is replaced, extended or removed, and no
      other is touched. */
  lemma TouchedMeans(headers: Headers, op: Op, key: string)
    ensures var after := ValuesOf(Touched(headers, op), key);
            && (op.SetHeader? && op.key == key ==> after == op.values)
            && (op.AddHeader? && op.key == key ==> after == ValuesOf(headers, key) + [op.value])
            && (op.DelHeader? && op.key == key ==> after == [])
            && (!TouchesHeaders(op) || op.key != key ==> after == ValuesOf(headers, key))
  {
  }

  function LastHeaders(ops: seq<Op>): Headers {
    if ops == [] then map[] else Touched(LastHeaders(ops[..|ops| - 1]), ops[|ops| - 1])
  }

  predicate HasWrite(ops: seq<Op>) {
    ops != [] && (HasWrite(ops[..|ops| - 1]) || ops[|ops| - 1].Write?)
  }

  /** Headers as they stand at the first Write, or at the end. */
  function SentHeaders(ops: seq<Op>): Headers {
    if ops == [] then map[]
    else if HasWrite(ops[..|ops| - 1]) then SentHeaders(ops[..|ops| - 1])
    else LastHeaders(ops)
  }

  lemma {:induction false} WriteStays(before: seq<Op>, after: seq<Op>)
    requires HasWrite(before)
    ensures HasWrite(before + after) && SentHeaders(before + after) == SentHeaders(before)
    decreases |after|
  {
    if after == [] {
      assert before + after == before;
    } else {
      assert (before + after)[..|before + after| - 1] == before + after[..|after| - 1];
      WriteStays(before, after[..|after| - 1]);
    }
  }

  /** The headers that go out are those set before the first Write, whatever is set after it; without any
      Write they are the last ones. */
  lemma {:induction false} HeadersAtFirstWrite(before: seq<Op>, data: seq<byte>, after: seq<Op>)
    requires !HasWrite(before)
    ensures SentHeaders(before + [Op.Write(data)] + after) == LastHeaders(before)
    ensures SentHeaders(before) == LastHeaders(before)
  {
    var first := before + [Op.Write(data)];
    assert first[..|before|] == before;
    WriteStays(first, after);
    HeadersWithoutWrite(before);
  }

  lemma {:induction false} HeadersWithoutWrite(ops: seq<Op>)
    requires !HasWrite(ops)
    ensures SentHeaders(ops) == LastHeaders(ops)
  {
  }

  /** How many bytes had been given to Write when completion first began. */
  function MarkOf(ops: seq<Op>): (mark: Option<nat>)
    ensures mark.Some? ==> mark.value <= |Body(ops)|
  {
    if ops == [] then None
    else
      var before := MarkOf(ops[..|ops| - 1]);
      if before.None? && ops[|ops| - 1].BeginCompletion? then Some(|Body(ops[..|ops| - 1])|) else before
  }

  /** Bytes written after the first BeginStreamCompletion. */
  function CompletionBytes(ops: seq<Op>): nat {
    if MarkOf(ops).Some? then |Body(ops)| - MarkOf(ops).value else 0
  }

  /** The status is decided by the first operation that touches the response. */
  lemma {:induction false} StatusIsFirst(ops: seq<Op>, i: nat)
    requires i < |ops| && Touches(ops[i]) && forall k :: 0 <= k < i ==> !Touches(ops[k])
    ensures Responds(ops) && StatusCode(ops) == if ops[i].WriteHeader? then ops[i].code else 0
    decreases |ops|
  {
    var front := ops[..|ops| - 1];
    if i < |front| {
      StatusIsFirst(front, i);
    } else {
      Untouched(front);
    }
  }

  lemma {:induction false} Untouched(ops: seq<Op>)
    requires forall k :: 0 <= k < |ops| ==> !Touches(ops[k])
    ensures !Responds(ops)
    decreases |ops|
  {
    if ops != [] {
      Untouched(ops[..|ops| - 1]);
    }
  }

  lemma {:induction false} BodyConcat(a: seq<Op>, b: seq<Op>)
    ensures Body(a + b) == Body(a) + Body(b)
    decreases |b|
  {
    if b == [] {
      assert a + b == a;
    } else {
      assert (a + b)[..|a + b| - 1] == a + b[..|b| - 1];
      BodyConcat(a, b[..|b| - 1]);
    }
  }

  lemma {:induction false} MarkStays(a: seq<Op>, b: seq<Op>)
    requires MarkOf(a).Some?
    ensures MarkOf(a + b) == MarkOf(a)
    decreases |b|
  {
    if b == [] {
      assert a + b == a;
    } else {
      assert (a + b)[..|a + b| - 1] == a + b[..|b| - 1];
      MarkStays(a, b[..|b| - 1]);
    }
  }

  /** Completion bytes are those of the Writes after the first BeginStreamCompletion. */
  lemma {:induction false} CompletionCounts(before: seq<Op>, after: seq<Op>)
    requires MarkOf(before).None?
    ensures MarkOf(before + [BeginCompletion] + after) == Some(|Body(before)|)
    ensures Body(before + [BeginCompletion] + after) == Body(before) + Body(after)
    ensures CompletionBytes(before + [BeginCompletion] + after) == |Body(after)|
  {
    Begun(before);
    MarkStays(before + [BeginCompletion], after);
    BodyConcat(before + [BeginCompletion], after);
  }

  lemma {:induction false} Begun(before: seq<Op>)
    requires MarkOf(before).None?
    ensures MarkOf(before + [BeginCompletion]) == Some(|Body(before)|)
    ensures Body(before + [BeginCompletion]) == Body(before)
  {
    assert (before + [BeginCompletion])[..|before|] == before;
  }

  const STATUS_OK := 200

  function MetaChunk(code: int, headers: Headers): Chunk {
    Chunk(ToInt32(if code == 0 then STATUS_OK else code), headers, [], false, None)
  }
}
