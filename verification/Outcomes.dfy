/** Verdicts: their kinds, when they allow another account to be tried, and their wire form. */
module Outcomes {
  import opened Bytes

  /** A Go int; the ten declared kinds are the constants below, anything else is undeclared. */
  type Kind = int

  const UNKNOWN: Kind := 0
  const SUCCESS: Kind := 1
  const CLIENT_ERROR: Kind := 2
  const ACCOUNT_RATE_LIMITED: Kind := 3
  const ACCOUNT_DEAD: Kind := 4
  const UPSTREAM_TRANSIENT: Kind := 5
  const STREAM_ABORTED: Kind := 6
  const FAMILY_TRANSIENT: Kind := 7
  const ACCOUNT_UNAVAILABLE: Kind := 8
  const ACCOUNT_QUOTA_EXHAUSTED: Kind := 9

  /** The protocol's enumeration; a decoder may also meet numbers it does not know. */
  datatype PbKind =
    | OutcomeUnknown | OutcomeSuccess | OutcomeClientError | OutcomeAccountRateLimited | OutcomeAccountDead
    | OutcomeUpstreamTransient | OutcomeStreamAborted | OutcomeFamilyTransient | OutcomeAccountUnavailable
    | OutcomeAccountQuotaExhausted | Unrecognized(number: int)

  datatype Scope = NoScope | Terminal | DispatchCandidate | ModelReroute

  datatype Usage = Usage(model: string, inputTokens: int, outputTokens: int)

  /** A request the plugin reports to have made, and the diagnostic of a final error. */
  datatype Outbound = Outbound(url: string, statusCode: int, body: seq<byte>, originalSize: int)
  datatype Diagnostic = Diagnostic(errorBody: seq<byte>, requests: seq<Outbound>)

  /** `retryAfter` and `duration` are in nanoseconds; the wire carries milliseconds. */
  datatype Outcome = Outcome(kind: Kind, scope: Scope, usage: Option<Usage>, reason: string,
                             retryAfter: int, duration: int, upstreamStatus: int, upstreamBody: seq<byte>,
                             diagnostic: Option<Diagnostic>)

  datatype WireOutcome = WireOutcome(kind: PbKind, scope: Scope, usage: Option<Usage>, reason: string,
                                     retryMs: int, durationMs: int, upstreamStatus: int, upstreamBody: seq<byte>,
                                     diagnostic: Option<Diagnostic>)

  const ZERO_OUTCOME := Outcome(UNKNOWN, NoScope, None, "", 0, 0, 0, [], None)

  const MILLISECOND := 1_000_000

  /** Go's conversion of an int to int32. */
  function ToInt32(n: int): int {
    var m := n % 0x1_0000_0000;
    if m < 0x8000_0000 then m else m - 0x1_0000_0000
  }

  predicate InInt32(n: int) {
    -0x8000_0000 <= n < 0x8000_0000
  }

  /** Whole milliseconds of a duration: Go's division truncates toward zero. */
  function WholeMs(d: int): int {
    if d >= 0 then d / MILLISECOND else -(-d / MILLISECOND)
  }

  predicate KindShouldFailover(k: Kind) {
    || k == ACCOUNT_RATE_LIMITED || k == ACCOUNT_DEAD || k == UPSTREAM_TRANSIENT
    || k == ACCOUNT_UNAVAILABLE || k == ACCOUNT_QUOTA_EXHAUSTED || k == FAMILY_TRANSIENT
  }

  predicate ShouldFailover(o: Outcome) {
    o.scope != Terminal && KindShouldFailover(o.kind)
  }

  /** Kinds that ask for another account than the one at fault. */
  predicate IsAccountFault(k: Kind) {
    || k == ACCOUNT_RATE_LIMITED || k == ACCOUNT_DEAD || k == ACCOUNT_UNAVAILABLE
    || k == ACCOUNT_QUOTA_EXHAUSTED || k == FAMILY_TRANSIENT
  }

  predicate Declared(k: Kind) {
    SUCCESS <= k <= ACCOUNT_QUOTA_EXHAUSTED
  }

  function KindToProto(k: Kind): PbKind {
    if k == SUCCESS then OutcomeSuccess
    else if k == CLIENT_ERROR then OutcomeClientError
    else if k == ACCOUNT_RATE_LIMITED then OutcomeAccountRateLimited
    else if k == ACCOUNT_DEAD then OutcomeAccountDead
    else if k == UPSTREAM_TRANSIENT then OutcomeUpstreamTransient
    else if k == STREAM_ABORTED then OutcomeStreamAborted
    else if k == FAMILY_TRANSIENT then OutcomeFamilyTransient
    else if k == ACCOUNT_UNAVAILABLE then OutcomeAccountUnavailable
    else if k == ACCOUNT_QUOTA_EXHAUSTED then OutcomeAccountQuotaExhausted
    else OutcomeUnknown
  }

  function KindFromProto(p: PbKind): Kind {
    match p
    case OutcomeSuccess => SUCCESS
    case OutcomeClientError => CLIENT_ERROR
    case OutcomeAccountRateLimited => ACCOUNT_RATE_LIMITED
    case OutcomeAccountDead => ACCOUNT_DEAD
    case OutcomeUpstreamTransient => UPSTREAM_TRANSIENT
    case OutcomeStreamAborted => STREAM_ABORTED
    case OutcomeFamilyTransient => FAMILY_TRANSIENT
    case OutcomeAccountUnavailable => ACCOUNT_UNAVAILABLE
    case OutcomeAccountQuotaExhausted => ACCOUNT_QUOTA_EXHAUSTED
    case _ => UNKNOWN
  }

  /** The numbers that the protocol gives its kinds. */
  function WireNumber(p: PbKind): int {
    match p
    case OutcomeUnknown => 0
    case OutcomeSuccess => 1
    case OutcomeClientError => 2
    case OutcomeAccountRateLimited => 3
    case OutcomeAccountDead => 4
    case OutcomeUpstreamTransient => 5
    case OutcomeStreamAborted => 6
    case OutcomeFamilyTransient => 7
    case OutcomeAccountUnavailable => 8
    case OutcomeAccountQuotaExhausted => 9
    case Unrecognized(number) => number
  }

  /** A diagnostic with every status of its requests as its last 32 bits. */
  function Carried(d: Diagnostic): Diagnostic {
    d.(requests := seq(|d.requests|, i requires 0 <= i < |d.requests| =>
                                       d.requests[i].(statusCode := ToInt32(d.requests[i].statusCode))))
  }

  function CarriedIfAny(d: Option<Diagnostic>): Option<Diagnostic> {
    if d.Some? then Some(Carried(d.value)) else None
  }

  function ToWire(o: Outcome): WireOutcome {
    WireOutcome(KindToProto(o.kind), o.scope, o.usage, o.reason, WholeMs(o.retryAfter), WholeMs(o.duration),
                ToInt32(o.upstreamStatus), o.upstreamBody, CarriedIfAny(o.diagnostic))
  }

  function FromWire(w: WireOutcome): Outcome {
    Outcome(KindFromProto(w.kind), w.scope, w.usage, w.reason, w.retryMs * MILLISECOND, w.durationMs * MILLISECOND,
            w.upstreamStatus, w.upstreamBody, w.diagnostic)
  }

  /** What arrives of a verdict: an undeclared kind as unknown, every status as its last 32 bits, and
      both durations in whole milliseconds. */
  function Arriving(o: Outcome): Outcome {
    o.(kind := if Declared(o.kind) then o.kind else UNKNOWN,
       upstreamStatus := ToInt32(o.upstreamStatus),
       retryAfter := WholeMs(o.retryAfter) * MILLISECOND,
       duration := WholeMs(o.duration) * MILLISECOND,
       diagnostic := CarriedIfAny(o.diagnostic))
  }

  /** Every status in the diagnostic, if there is one, fits in 32 bits. */
  ghost predicate NarrowStatuses(d: Option<Diagnostic>) {
    d.Some? ==> forall i :: 0 <= i < |d.value.requests| ==> InInt32(d.value.requests[i].statusCode)
  }

  lemma DiagnosticRoundTrip(d: Option<Diagnostic>)
    ensures CarriedIfAny(d) == d <==> NarrowStatuses(d)
  {
    if d.Some? {
      var requests, carried := d.value.requests, Carried(d.value).requests;
      forall i | 0 <= i < |requests|
        ensures carried[i] == requests[i] <==> InInt32(requests[i].statusCode)
      {
        Int32RoundTrip(requests[i].statusCode);
      }
      assert carried == requests <==> forall i :: 0 <= i < |requests| ==> carried[i] == requests[i];
    }
  }

  lemma KindRoundTrip(k: Kind)
    ensures KindFromProto(KindToProto(k)) == if Declared(k) then k else UNKNOWN
  {
  }

  /** Both sides number the kinds alike, so a kind travels as its own number. */
  lemma KindsKeepTheirNumbers(k: Kind, p: PbKind)
    ensures WireNumber(KindToProto(k)) == if 1 <= k <= 9 then k else 0
    ensures KindFromProto(p) == if p.Unrecognized? then 0 else WireNumber(p)
  {
  }

  /** Another account is tried for every fault of an account and for a passing fault of the upstream,
      never for a success, a client's mistake, a broken stream or an unknown verdict, and never
      against a terminal scope. */
  lemma FailoverKinds(o: Outcome)
    ensures ShouldFailover(o) <==> o.scope != Terminal && (IsAccountFault(o.kind) || o.kind == UPSTREAM_TRANSIENT)
    ensures o.scope != Terminal ==>
              (!ShouldFailover(o) <==> o.kind !in {3, 4, 5, 7, 8, 9})
  {
  }

  /** The conversion keeps the last 32 bits as a signed number. */
  lemma Int32Is(n: int)
    ensures -0x8000_0000 <= ToInt32(n) < 0x8000_0000 && (n - ToInt32(n)) % 0x1_0000_0000 == 0
  {
  }

  /** Less than a millisecond is cut off, toward zero. */
  lemma WholeMsIs(d: int)
    ensures d >= 0 ==> 0 <= d - WholeMs(d) * 1_000_000 < 1_000_000
    ensures d <= 0 ==> -1_000_000 < d - WholeMs(d) * 1_000_000 <= 0
  {
  }

  lemma Int32RoundTrip(n: int)
    ensures ToInt32(n) == n <==> InInt32(n)
  {
  }

  lemma MsRoundTrip(d: int)
    ensures WholeMs(d) * MILLISECOND == d <==> d % MILLISECOND == 0
  {
  }

  /** A verdict survives the wire exactly when its kind is declared or the zero value, its upstream
      status and those of its diagnostic fit in 32 bits, and its durations are whole milliseconds. */
  lemma WireRoundTrip(o: Outcome)
    ensures FromWire(ToWire(o)) == Arriving(o)
    ensures FromWire(ToWire(o)) == o
       <==> (Declared(o.kind) || o.kind == UNKNOWN) && InInt32(o.upstreamStatus) && NarrowStatuses(o.diagnostic)
            && o.retryAfter % MILLISECOND == 0 && o.duration % MILLISECOND == 0
    ensures ShouldFailover(FromWire(ToWire(o))) == ShouldFailover(o)
  {
    KindRoundTrip(o.kind);
    Int32RoundTrip(o.upstreamStatus);
    MsRoundTrip(o.retryAfter);
    MsRoundTrip(o.duration);
    DiagnosticRoundTrip(o.diagnostic);
  }

  /** The diagnostic as the peer gets it: everything but the statuses as it was. */
  ghost predicate SameDiagnostic(sent: Option<Diagnostic>, got: Option<Diagnostic>) {
    && (sent.None? <==> got.None?)
    && (sent.Some? ==>
          && got.value.errorBody == sent.value.errorBody && |got.value.requests| == |sent.value.requests|
          && forall i :: 0 <= i < |sent.value.requests| ==> SameRequest(sent.value.requests[i], got.value.requests[i]))
  }

  ghost predicate SameRequest(sent: Outbound, got: Outbound) {
    && got.url == sent.url && got.body == sent.body && got.originalSize == sent.originalSize
    && got.statusCode == ToInt32(sent.statusCode)
  }

  /** What a verdict is after the wire, field by field. */
  lemma ArrivesFieldByField(o: Outcome)
    ensures var r := FromWire(ToWire(o));
            && r.kind == (if Declared(o.kind) then o.kind else UNKNOWN)
            && r.scope == o.scope && r.usage == o.usage && r.reason == o.reason && r.upstreamBody == o.upstreamBody
            && r.upstreamStatus == ToInt32(o.upstreamStatus)
            && r.retryAfter == WholeMs(o.retryAfter) * 1_000_000 && r.duration == WholeMs(o.duration) * 1_000_000
            && SameDiagnostic(o.diagnostic, r.diagnostic)
  {
    KindRoundTrip(o.kind);
  }

  /** A success whose upstream status is 2^32 arrives with no status at all. */
  lemma WideUpstreamStatusIsLost()
    ensures var o := ZERO_OUTCOME.(kind := SUCCESS, upstreamStatus := 0x1_0000_0000);
            FromWire(ToWire(o)) == o.(upstreamStatus := 0)
  {
  }

  /** A retry delay below a millisecond arrives as none. */
  lemma ShortDelayIsLost(o: Outcome)
    requires 0 < o.retryAfter < MILLISECOND
    ensures FromWire(ToWire(o)).retryAfter == 0
  {
  }
}
