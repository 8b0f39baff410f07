/**
 * The WebSocket bridge: a receiving thread, a sending thread it spawns and joins, and a callback
 * that fires on cancellation. Every step is one atomic action of one of them; a run is any
 * sequence of labels, and a label that is not enabled does nothing.
 */
module WebSocketBridge {
  import opened Bytes

  /** A message of the connection. */
  datatype Msg = Msg(binary: bool, data: seq<byte>)

  datatype Frame =
    | Text(data: seq<byte>) | Binary(data: seq<byte>) | Close(code: int) | Result(outcome: Option<nat>) | Other

  datatype Received = Got(frame: Frame) | Eof | RecvErr

  datatype Failure = OpenFailed | SetupFailed | ConnectFailed | RecvFailed | WriteFailed

  /** What the call gives back: an outcome, if the plugin sent one, and an error. */
  datatype Return = Return(outcome: Option<nat>, failure: Option<Failure>)

  /** Where the receiving thread stands: set-up, the receive loop, the four actions of stopping the
      reader, and the deferred clean-up. */
  datatype MainPc =
    | Opening | Checking | Connecting
    | Receiving | Writing(msg: Msg)
    | StopCallback | StopCancel | StopClose | Draining
    | DeferStop | DeferClose | DeferCancel | Returned

  /** The sending thread: its loop, and its three deferred actions in the order they run. */
  datatype SenderPc =
    | Absent | Polling | Reading | Sending(msg: Msg) | Pushing
    | Cancelling | ClosingSend | ClosingChan | Exited

  datatype CallbackPc = Unset | Armed | Stopped | Fired | Finished

  datatype StreamOp = BeginSend | EndSend | CloseSend

  /** `streaming` says whether the stream could be opened at all; `closes` counts Close calls on the
      connection behind its once-guard `closed`; `errChan` is how many errors wait in the one-slot channel. */
  datatype Control = Control(main: MainPc, sender: SenderPc, callback: CallbackPc, cancelled: bool,
                             closed: bool, closes: nat, errChan: nat, chanClosed: bool, streaming: bool)

  /** Messages read from the connection and sent on, received from the plugin and written out. */
  datatype Relay = Relay(consumed: seq<Msg>, sent: seq<Msg>, incoming: seq<Msg>, written: seq<Msg>)

  /** `log` is every call on the stream's sending half, `inputs` what the receiving thread acted on,
      and `verdict` what it will return once it has decided to. */
  datatype State = State(c: Control, log: seq<StreamOp>, relay: Relay, inputs: seq<Label>, verdict: Option<Return>)

  const INIT :=
    State(Control(Opening, Absent, Unset, false, false, 0, 0, false, false), [], Relay([], [], [], []), [], None)

  datatype Label =
    | ParentCancel
    | RunCallback
    | Opened(ok: bool)
    | Check(ok: bool)
    | ConnectSent(ok: bool)
    | Receive(what: Received)
    | WriteDone(ok: bool)
    | Stop
    | Poll
    | ReadOk(msg: Msg)
    | ReadErr
    | SendDone(ok: bool)
    | Leave

  predicate InStop(m: MainPc) {
    m.StopCallback? || m.StopCancel? || m.StopClose? || m.Draining?
  }

  predicate InDefer(m: MainPc) {
    m.DeferStop? || m.DeferClose? || m.DeferCancel?
  }

  predicate Enabled(c: Control, l: Label) {
    match l
    case ParentCancel => !c.cancelled
    case RunCallback => c.callback.Fired?
    case Opened(_) => c.main.Opening?
    case Check(_) => c.main.Checking?
    case ConnectSent(_) => c.main.Connecting?
    case Receive(_) => c.main.Receiving?
    case WriteDone(_) => c.main.Writing?
    case Stop => InDefer(c.main) || (InStop(c.main) && (c.main.Draining? ==> c.errChan > 0 || c.chanClosed))
    case Poll => c.sender.Polling?
    case ReadOk(_) => c.sender.Reading? && !c.closed
    case ReadErr => c.sender.Reading?
    case SendDone(_) => c.sender.Sending?
    // A push into the one-slot channel would block while the slot is taken.
    case Leave =>
      || (c.sender.Pushing? && c.errChan == 0)
      || c.sender.Cancelling? || c.sender.ClosingSend? || c.sender.ClosingChan?
  }

  /** Cancelling the context starts the callback, unless that was stopped before. */
  function DoCancel(c: Control): Control {
    c.(cancelled := true, callback := if c.callback.Armed? then Fired else c.callback)
  }

  function DoClose(c: Control): Control {
    if c.closed then c else c.(closed := true, closes := c.closes + 1)
  }

  function DoStopCallback(c: Control): Control {
    c.(callback := if c.callback.Armed? then Stopped else c.callback)
  }

  /** Registering the callback on a context that is cancelled already starts it at once. */
  function AfterOpened(c: Control, ok: bool): Control {
    if ok then c.(main := Checking, streaming := true, callback := if c.cancelled then Fired else Armed)
    else c.(main := DeferCancel)
  }

  function AfterReceive(c: Control, what: Received): Control {
    match what
    case Got(Text(data)) => c.(main := Writing(Msg(false, data)))
    case Got(Binary(data)) => c.(main := Writing(Msg(true, data)))
    case Got(Other) => c
    case _ => c.(main := StopCallback)
  }

  function AfterStop(c: Control): Control {
    match c.main
    case StopCallback => DoStopCallback(c).(main := StopCancel)
    case StopCancel => DoCancel(c).(main := StopClose)
    case StopClose => DoClose(c).(main := Draining)
    case Draining => if c.errChan > 0 then c.(errChan := c.errChan - 1) else c.(main := DeferStop)
    case DeferStop => DoStopCallback(c).(main := DeferClose)
    case DeferClose => DoClose(c).(main := DeferCancel)
    case DeferCancel => DoCancel(c).(main := Returned)
    case _ => c
  }

  function AfterLeave(c: Control): Control {
    match c.sender
    case Pushing => c.(sender := Cancelling, errChan := c.errChan + 1)
    case Cancelling => DoCancel(c).(sender := ClosingSend)
    case ClosingSend => c.(sender := ClosingChan)
    case ClosingChan => c.(sender := Exited, chanClosed := true)
    case _ => c
  }

  function Act(c: Control, l: Label): Control {
    match l
    case ParentCancel => DoCancel(c)
    case RunCallback => DoClose(c).(callback := Finished)
    case Opened(ok) => AfterOpened(c, ok)
    case Check(ok) => c.(main := if ok then Connecting else DeferStop)
    case ConnectSent(ok) => if ok then c.(main := Receiving, sender := Polling) else c.(main := DeferStop)
    case Receive(what) => AfterReceive(c, what)
    case WriteDone(ok) => c.(main := if ok then Receiving else StopCallback)
    case Stop => AfterStop(c)
    case Poll => c.(sender := if c.cancelled then Cancelling else Reading)
    case ReadOk(msg) => c.(sender := Sending(msg))
    case ReadErr => c.(sender := Pushing)
    case SendDone(ok) => c.(sender := if ok then Polling else Pushing)
    case Leave => AfterLeave(c)
  }

  /** What the step adds to the stream's log. */
  function Logged(c: Control, l: Label): seq<StreamOp> {
    match l
    case Check(ok) => if ok then [BeginSend] else []
    case ConnectSent(_) => [EndSend]
    case ReadOk(_) => [BeginSend]
    case SendDone(_) => [EndSend]
    case Leave => if c.sender.ClosingSend? then [CloseSend] else []
    case _ => []
  }

  function Relaying(r: Relay, c: Control, l: Label): Relay {
    match l
    case Receive(Got(Text(data))) => r.(incoming := r.incoming + [Msg(false, data)])
    case Receive(Got(Binary(data))) => r.(incoming := r.incoming + [Msg(true, data)])
    case WriteDone(ok) => if ok && c.main.Writing? then r.(written := r.written + [c.main.msg]) else r
    case ReadOk(msg) => r.(consumed := r.consumed + [msg])
    case SendDone(ok) => if ok && c.sender.Sending? then r.(sent := r.sent + [c.sender.msg]) else r
    case _ => r
  }

  predicate OfMain(l: Label) {
    l.Opened? || l.Check? || l.ConnectSent? || l.Receive? || l.WriteDone? || l.Stop?
  }

  /** What the receiving thread decides to return on this input, if it goes no further. */
  function ReturnOn(l: Label): Option<Return> {
    match l
    case Opened(ok) => if ok then None else Some(Return(None, Some(OpenFailed)))
    case Check(ok) => if ok then None else Some(Return(None, Some(SetupFailed)))
    case ConnectSent(ok) => if ok then None else Some(Return(None, Some(ConnectFailed)))
    case WriteDone(ok) => if ok then None else Some(Return(None, Some(WriteFailed)))
    case Receive(RecvErr) => Some(Return(None, Some(RecvFailed)))
    case Receive(Eof) => Some(Return(None, None))
    case Receive(Got(Close(_))) => Some(Return(None, None))
    case Receive(Got(Result(outcome))) => Some(Return(outcome, None))
    case _ => None
  }

  function Next(s: State, l: Label): State {
    if !Enabled(s.c, l) then s
    else State(Act(s.c, l), s.log + Logged(s.c, l), Relaying(s.relay, s.c, l),
               if OfMain(l) && !l.Stop? then s.inputs + [l] else s.inputs,
               if ReturnOn(l).Some? then ReturnOn(l) else s.verdict)
  }

  function Run(s: State, labels: seq<Label>): State {
    if labels == [] then s else Next(Run(s, labels[..|labels| - 1]), labels[|labels| - 1])
  }

  /** The steps that took place, of all that were tried. */
  function Taken(labels: seq<Label>): seq<Label> {
    if labels == [] then []
    else
      var front, last := labels[..|labels| - 1], labels[|labels| - 1];
      Taken(front) + if Enabled(Run(INIT, front).c, last) then [last] else []
  }

  // ---- Safety ----

  /** Sends never overlap, and CloseSend comes once, after the last of them. */
  ghost predicate Orderly(log: seq<StreamOp>) {
    && (forall i :: 0 <= i < |log| - 1 && log[i] == BeginSend ==> log[i + 1] == EndSend)
    && (forall i :: 0 <= i < |log| && log[i] == EndSend ==> i > 0 && log[i - 1] == BeginSend)
    && (forall i :: 0 <= i < |log| - 1 ==> log[i] != CloseSend)
  }

  predicate LastIs(log: seq<StreamOp>, op: StreamOp) {
    log != [] && log[|log| - 1] == op
  }

  lemma OrderlyAppend(log: seq<StreamOp>, op: StreamOp)
    requires Orderly(log) && !LastIs(log, CloseSend)
    requires LastIs(log, BeginSend) <==> op == EndSend
    ensures Orderly(log + [op]) && LastIs(log + [op], op)
  {
  }

  /** The stream's log agrees with who is in the middle of a Send, and whether it is closed. */
  ghost predicate LogInv(log: seq<StreamOp>, c: Control) {
    && Orderly(log)
    && (LastIs(log, BeginSend) <==> c.main.Connecting? || c.sender.Sending?)
    && (LastIs(log, CloseSend) <==> c.sender.ClosingChan? || c.sender.Exited?)
  }

  predicate Early(m: MainPc) {
    m.Opening? || m.Checking? || m.Connecting?
  }

  predicate Leaving(m: MainPc) {
    InDefer(m) || m.Returned?
  }

  predicate InLoop(p: SenderPc) {
    p.Polling? || p.Reading? || p.Sending? || p.Pushing?
  }

  /** Without a stream there is nothing to close and nobody to join. */
  predicate Unopened(c: Control) {
    && (c.main.Opening? || c.main.DeferCancel? || c.main.Returned?)
    && c.sender.Absent? && c.callback.Unset? && !c.closed
  }

  /** Who may be where: the join comes before the deferred actions, and so on. */
  ghost predicate Places(c: Control) {
    && (Early(c.main) ==> c.sender.Absent?)
    && (c.main.Receiving? || c.main.Writing? || InStop(c.main) ==> !c.sender.Absent?)
    && (Leaving(c.main) ==> c.sender.Absent? || c.sender.Exited?)
    && (c.chanClosed <==> c.sender.Exited?)
    && c.errChan <= 1
    && (c.sender.Absent? || InLoop(c.sender) ==> c.errChan == 0)
    && c.closes == (if c.closed then 1 else 0)
    && (c.main.StopClose? || c.main.Draining? || c.main.Returned? ==> c.cancelled)
    && (c.main.Draining? || c.main.DeferCancel? || c.main.Returned? ==> c.closed || !c.streaming)
    && (c.cancelled ==> !c.callback.Armed?)
    && (c.main.StopCancel? || c.main.DeferClose? ==> !c.callback.Armed?)
    && (c.callback.Armed? ==> c.streaming)
    && (c.main.Opening? ==> !c.streaming)
    && (!c.streaming ==> Unopened(c))
  }

  /** What was read is sent on in order. */
  ghost predicate Outward(r: Relay, c: Control) {
    && r.sent <= r.consumed && |r.consumed| <= |r.sent| + 1
    && (c.sender.Absent? || c.sender.Polling? || c.sender.Reading? ==> r.consumed == r.sent)
    && (c.sender.Sending? ==> r.consumed == r.sent + [c.sender.msg])
  }

  /** What came in is written out in order. */
  ghost predicate Inward(r: Relay, c: Control) {
    && r.written <= r.incoming && |r.incoming| <= |r.written| + 1
    && (Early(c.main) || c.main.Receiving? ==> r.incoming == r.written)
    && (c.main.Writing? ==> r.incoming == r.written + [c.main.msg])
  }

  ghost predicate Relayed(r: Relay, c: Control) {
    Outward(r, c) && Inward(r, c)
  }

  ghost predicate Inv(s: State) {
    LogInv(s.log, s.c) && Places(s.c) && Relayed(s.relay, s.c) && Judged(s.c, s.inputs, s.verdict)
  }

  /** The decision falls with the last input, and every earlier one was passed over. */
  ghost predicate DecidedBy(inputs: seq<Label>, verdict: Option<Return>) {
    && (inputs == [] ==> verdict.None?)
    && (inputs != [] ==> verdict == ReturnOn(inputs[|inputs| - 1]))
    && forall i :: 0 <= i < |inputs| - 1 ==> ReturnOn(inputs[i]).None?
  }

  ghost predicate Judged(c: Control, inputs: seq<Label>, verdict: Option<Return>) {
    DecidedBy(inputs, verdict) && (verdict.Some? <==> InStop(c.main) || Leaving(c.main))
  }

  lemma JudgedStep(c: Control, inputs: seq<Label>, verdict: Option<Return>, l: Label)
    requires Judged(c, inputs, verdict) && Enabled(c, l)
    ensures Judged(Act(c, l), if OfMain(l) && !l.Stop? then inputs + [l] else inputs,
                   if ReturnOn(l).Some? then ReturnOn(l) else verdict)
  {
  }

  /** Adding one call to the log, and nothing else that it depends on. */
  lemma LogOne(log: seq<StreamOp>, c: Control, l: Label, op: StreamOp)
    requires LogInv(log, c) && Places(c) && Enabled(c, l) && Logged(c, l) == [op]
    ensures LogInv(log + [op], Act(c, l))
  {
    OrderlyAppend(log, op);
  }

  lemma LogStep(log: seq<StreamOp>, c: Control, l: Label)
    requires LogInv(log, c) && Places(c) && Enabled(c, l)
    ensures LogInv(log + Logged(c, l), Act(c, l))
  {
    if Logged(c, l) == [] {
      assert log + Logged(c, l) == log;
    } else {
      LogOne(log, c, l, Logged(c, l)[0]);
      assert Logged(c, l) == [Logged(c, l)[0]];
    }
  }

  lemma PlacesStep(c: Control, l: Label)
    requires Places(c) && Enabled(c, l)
    ensures Places(Act(c, l))
  {
    if l.Stop? {
      if InStop(c.main) {
        PlacesStop(c);
      } else {
        PlacesDefer(c);
      }
    } else if OfMain(l) {
      PlacesMain(c, l);
    } else {
      PlacesOther(c, l);
    }
  }

  lemma PlacesStop(c: Control)
    requires Places(c) && Enabled(c, Stop) && InStop(c.main)
    ensures Places(Act(c, Stop))
  {
  }

  lemma PlacesDefer(c: Control)
    requires Places(c) && Enabled(c, Stop) && InDefer(c.main)
    ensures Places(Act(c, Stop))
  {
  }

  lemma PlacesMain(c: Control, l: Label)
    requires Places(c) && Enabled(c, l) && OfMain(l) && !l.Stop?
    ensures Places(Act(c, l))
  {
  }

  lemma PlacesOther(c: Control, l: Label)
    requires Places(c) && Enabled(c, l) && !OfMain(l)
    ensures Places(Act(c, l))
  {
  }

  lemma OutwardStep(r: Relay, c: Control, l: Label)
    requires Outward(r, c) && Places(c) && Enabled(c, l)
    ensures Outward(Relaying(r, c, l), Act(c, l))
  {
  }

  lemma InwardStep(r: Relay, c: Control, l: Label)
    requires Inward(r, c) && Enabled(c, l)
    ensures Inward(Relaying(r, c, l), Act(c, l))
  {
  }

  lemma StepKeepsInv(s: State, l: Label)
    requires Inv(s)
    ensures Inv(Next(s, l))
  {
    if Enabled(s.c, l) {
      LogStep(s.log, s.c, l);
      PlacesStep(s.c, l);
      OutwardStep(s.relay, s.c, l);
      InwardStep(s.relay, s.c, l);
      JudgedStep(s.c, s.inputs, s.verdict, l);
    }
  }

  lemma {:induction false} RunKeepsInv(labels: seq<Label>)
    ensures Inv(Run(INIT, labels))
    decreases |labels|
  {
    if labels != [] {
      RunKeepsInv(labels[..|labels| - 1]);
      StepKeepsInv(Run(INIT, labels[..|labels| - 1]), labels[|labels| - 1]);
    }
  }

  /** In every reachable state: Sends do not overlap and CloseSend is the last call; the connection
      is closed at most once, and the cancellation that stops the reader is not what closes it; a push
      into the error channel finds room; and once the call has returned, the sending thread is gone (if
      it was ever there), the connection has been closed exactly once if the stream could be opened and
      never otherwise, and the context is cancelled. */
  lemma {:induction false} BridgeIsSafe(labels: seq<Label>)
    ensures var s := Run(INIT, labels);
            && Orderly(s.log)
            && s.c.closes <= 1
            && (s.c.main.StopCancel? || s.c.main.DeferClose? ==> !s.c.callback.Armed?)
            && (s.c.sender.Pushing? ==> s.c.errChan == 0)
            && (s.c.main.Returned? ==> (s.c.sender.Absent? || s.c.sender.Exited?) && s.c.cancelled)
            && (s.c.main.Returned? ==> s.c.closes == if s.c.streaming then 1 else 0)
            && (s.c.main.Returned? && s.c.sender.Exited? ==> LastIs(s.log, CloseSend))
  {
    RunKeepsInv(labels);
  }

  /** A call whose stream cannot be opened returns and leaves the connection as it is. */
  lemma UnopenedIsNotClosed()
    ensures var c := Run(INIT, [Opened(false), Stop]).c; c.main.Returned? && c.closes == 0 && !c.streaming
  {
    var labels := [Opened(false), Stop];
    var first: seq<Label> := [Opened(false)];
    assert labels[..1] == first && first[..0] == [];
    assert Run(INIT, first[..0]) == INIT;
    assert Run(INIT, first).c == Act(INIT.c, Opened(false));
  }

  /** The message of a frame that carries one. */
  function MessageIn(f: Frame): seq<Msg> {
    if f.Text? then [Msg(false, f.data)] else if f.Binary? then [Msg(true, f.data)] else []
  }

  function ReceivedIn(trace: seq<Label>): seq<Msg> {
    if trace == [] then []
    else
      var last := trace[|trace| - 1];
      ReceivedIn(trace[..|trace| - 1]) + if last.Receive? && last.what.Got? then MessageIn(last.what.frame) else []
  }

  function ReadIn(trace: seq<Label>): seq<Msg> {
    if trace == [] then []
    else ReadIn(trace[..|trace| - 1]) + if trace[|trace| - 1].ReadOk? then [trace[|trace| - 1].msg] else []
  }

  function CountOf(trace: seq<Label>, l: Label): nat {
    if trace == [] then 0 else CountOf(trace[..|trace| - 1], l) + if trace[|trace| - 1] == l then 1 else 0
  }

  ghost predicate RelayedAll(r: Relay, trace: seq<Label>) {
    && r.consumed == ReadIn(trace) && |r.sent| == CountOf(trace, SendDone(true))
    && r.incoming == ReceivedIn(trace) && |r.written| == CountOf(trace, WriteDone(true))
  }

  lemma RelayedStep(r: Relay, c: Control, trace: seq<Label>, l: Label)
    requires RelayedAll(r, trace) && Enabled(c, l)
    ensures RelayedAll(Relaying(r, c, l), trace + [l])
  {
    assert (trace + [l])[..|trace|] == trace;
  }

  lemma {:induction false} RelayFollowsTrace(labels: seq<Label>)
    ensures RelayedAll(Run(INIT, labels).relay, Taken(labels))
    decreases |labels|
  {
    if labels != [] {
      var front, last := labels[..|labels| - 1], labels[|labels| - 1];
      var s := Run(INIT, front);
      RelayFollowsTrace(front);
      if Enabled(s.c, last) {
        RelayedStep(s.relay, s.c, Taken(front), last);
      } else {
        assert Taken(front) + [] == Taken(front);
      }
    }
  }

  /** Nothing is reordered, duplicated or invented in either direction: what was sent on are the first
      messages read from the connection, as many as Sends succeeded, and what was written out are the
      first ones received from the plugin, text as text and binary as binary, as many as writes
      succeeded; at most the message in flight at the end is missing. */
  lemma {:induction false} BridgeRelaysInOrder(labels: seq<Label>)
    ensures var r, trace := Run(INIT, labels).relay, Taken(labels);
            && r.sent <= ReadIn(trace) && |ReadIn(trace)| <= |r.sent| + 1 && |r.sent| == CountOf(trace, SendDone(true))
            && r.written <= ReceivedIn(trace) && |ReceivedIn(trace)| <= |r.written| + 1
            && |r.written| == CountOf(trace, WriteDone(true))
  {
    RunKeepsInv(labels);
    RelayFollowsTrace(labels);
  }

  /** An input after which the receiving thread goes on. */
  predicate PassedOver(l: Label) {
    || l == Opened(true) || l == Check(true) || l == ConnectSent(true) || l == WriteDone(true)
    || (l.Receive? && l.what.Got? && (l.what.frame.Text? || l.what.frame.Binary? || l.what.frame.Other?))
  }

  /** What the call returns on each input that ends it. */
  predicate EndsWith(l: Label, r: Return) {
    match l
    case Opened(ok) => !ok && r == Return(None, Some(OpenFailed))
    case Check(ok) => !ok && r == Return(None, Some(SetupFailed))
    case ConnectSent(ok) => !ok && r == Return(None, Some(ConnectFailed))
    case WriteDone(ok) => !ok && r == Return(None, Some(WriteFailed))
    case Receive(RecvErr) => r == Return(None, Some(RecvFailed))
    case Receive(Eof) => r == Return(None, None)
    case Receive(Got(Close(_))) => r == Return(None, None)
    case Receive(Got(Result(outcome))) => r == Return(outcome, None)
    case _ => false
  }

  lemma ReturnIs(l: Label)
    requires OfMain(l) && !l.Stop?
    ensures ReturnOn(l).None? ==> PassedOver(l)
    ensures ReturnOn(l).Some? ==> EndsWith(l, ReturnOn(l).value)
  {
  }

  /** What the receiving thread got to know: the results of its own calls on stream and connection. */
  function InputsIn(trace: seq<Label>): (inputs: seq<Label>)
    ensures forall i :: 0 <= i < |inputs| ==> OfMain(inputs[i]) && !inputs[i].Stop?
  {
    if trace == [] then []
    else
      var last := trace[|trace| - 1];
      InputsIn(trace[..|trace| - 1])
      + if last.Opened? || last.Check? || last.ConnectSent? || last.Receive? || last.WriteDone? then [last] else []
  }

  lemma {:induction false} InputsFollowTrace(labels: seq<Label>)
    ensures Run(INIT, labels).inputs == InputsIn(Taken(labels))
    decreases |labels|
  {
    if labels != [] {
      var front, last := labels[..|labels| - 1], labels[|labels| - 1];
      InputsFollowTrace(front);
      if Enabled(Run(INIT, front).c, last) {
        assert (Taken(front) + [last])[..|Taken(front)|] == Taken(front);
      } else {
        assert Taken(front) + [] == Taken(front);
      }
    }
  }

  /** The plugin's outcome and the first error of the receiving thread are what the call returns. They
      are decided by the one input that ended its loop or its set-up: a RESULT frame gives its outcome,
      the end of the stream or a CLOSE frame neither outcome nor error, and each failure its own error
      and no outcome. All earlier inputs were successes or frames to be passed on or ignored, and no
      cancellation or error of the sending thread plays a part. */
  lemma {:induction false} BridgeReturnsResult(labels: seq<Label>)
    requires Run(INIT, labels).c.main.Returned?
    ensures var verdict, inputs := Run(INIT, labels).verdict, InputsIn(Taken(labels));
            && verdict.Some? && inputs != []
            && EndsWith(inputs[|inputs| - 1], verdict.value)
            && forall i :: 0 <= i < |inputs| - 1 ==> PassedOver(inputs[i])
  {
    RunKeepsInv(labels);
    InputsFollowTrace(labels);
    var s := Run(INIT, labels);
    assert Judged(s.c, s.inputs, s.verdict);
    forall i | 0 <= i < |s.inputs|
      ensures ReturnOn(s.inputs[i]).None? ==> PassedOver(s.inputs[i])
      ensures ReturnOn(s.inputs[i]).Some? ==> EndsWith(s.inputs[i], ReturnOn(s.inputs[i]).value)
    {
      ReturnIs(s.inputs[i]);
    }
  }

  /** What the receiving thread does next, after the inputs so far: open, check, send CONNECT, and then
      receive and write in turn. */
  ghost predicate InTurn(inputs: seq<Label>, i: nat)
    requires i < |inputs|
  {
    if i == 0 then inputs[i].Opened?
    else if i == 1 then inputs[i].Check?
    else if i == 2 then inputs[i].ConnectSent?
    else if Carries(inputs[i - 1]) then inputs[i].WriteDone?
    else inputs[i].Receive?
  }

  /** A frame whose message is to be written out. */
  predicate Carries(l: Label) {
    l.Receive? && l.what.Got? && (l.what.frame.Text? || l.what.frame.Binary?)
  }

  /** Where the receiving thread stands after these inputs. */
  ghost predicate Stage(inputs: seq<Label>, m: MainPc) {
    var n := |inputs|;
    && (m.Opening? <==> n == 0)
    && (m.Checking? ==> n == 1)
    && (m.Connecting? ==> n == 2)
    && (m.Receiving? ==> n >= 3 && !Carries(inputs[n - 1]))
    && (m.Writing? ==> n >= 3 && Carries(inputs[n - 1]))
  }

  ghost predicate AllInTurn(inputs: seq<Label>) {
    forall i :: 0 <= i < |inputs| ==> InTurn(inputs, i)
  }

  lemma StageStep(c: Control, inputs: seq<Label>, l: Label)
    requires Stage(inputs, c.main) && AllInTurn(inputs) && Enabled(c, l)
    ensures var more := if OfMain(l) && !l.Stop? then inputs + [l] else inputs;
            Stage(more, Act(c, l).main) && AllInTurn(more)
  {
    var more := inputs + [l];
    if OfMain(l) && !l.Stop? {
      assert InTurn(more, |inputs|);
      forall i | 0 <= i < |inputs|
        ensures InTurn(more, i)
      {
        assert InTurn(inputs, i);
      }
    }
  }

  lemma {:induction false} StagesRun(labels: seq<Label>)
    ensures var s := Run(INIT, labels); Stage(s.inputs, s.c.main) && AllInTurn(s.inputs)
    decreases |labels|
  {
    if labels != [] {
      var front, last := labels[..|labels| - 1], labels[|labels| - 1];
      StagesRun(front);
      if Enabled(Run(INIT, front).c, last) {
        StageStep(Run(INIT, front).c, Run(INIT, front).inputs, last);
      }
    }
  }

  /** The receiving thread calls stream and connection strictly in turn: it opens the stream once,
      checks, sends CONNECT once, and writes out every message before it receives again. */
  lemma {:induction false} ReceiverTakesTurns(labels: seq<Label>)
    ensures var inputs := InputsIn(Taken(labels)); forall i :: 0 <= i < |inputs| ==> InTurn(inputs, i)
  {
    StagesRun(labels);
    InputsFollowTrace(labels);
  }

  // ---- Who cancels ----

  /** The call has not begun to end: neither thread has come to its own cancellation. */
  predicate Underway(c: Control) {
    && (Early(c.main) || c.main.Receiving? || c.main.Writing? || c.main.StopCallback? || c.main.StopCancel?)
    && (c.sender.Absent? || InLoop(c.sender) || c.sender.Cancelling?)
  }

  lemma CancelStep(c: Control, l: Label)
    requires Places(c) && (Underway(c) ==> !c.cancelled) && Enabled(c, l) && l != ParentCancel
    ensures Underway(Act(c, l)) ==> !Act(c, l).cancelled
  {
  }

  /** Unless the caller cancels, the context stays alive until one of the threads ends. */
  lemma {:induction false} CancelHasCause(labels: seq<Label>)
    requires CountOf(Taken(labels), ParentCancel) == 0
    ensures var c := Run(INIT, labels).c; Underway(c) ==> !c.cancelled
    decreases |labels|
  {
    if labels != [] {
      var front, last := labels[..|labels| - 1], labels[|labels| - 1];
      if Enabled(Run(INIT, front).c, last) {
        assert (Taken(front) + [last])[..|Taken(front)|] == Taken(front);
        CancelHasCause(front);
        RunKeepsInv(front);
        CancelStep(Run(INIT, front).c, last);
      } else {
        assert Taken(front) + [] == Taken(front);
        CancelHasCause(front);
      }
    }
  }

  // ---- The sender's error ----

  function ErrorsIn(trace: seq<Label>): nat {
    if trace == [] then 0
    else ErrorsIn(trace[..|trace| - 1])
         + if trace[|trace| - 1].ReadErr? || trace[|trace| - 1] == SendDone(false) then 1 else 0
  }

  /** A failed read or Send waits in the channel until the join drains it. */
  ghost predicate ErrorWaits(c: Control, errors: nat) {
    && errors <= 1
    && (c.sender.Absent? || c.sender.Polling? || c.sender.Reading? || c.sender.Sending? ==> errors == 0)
    && (c.sender.Pushing? ==> errors == 1)
    && (!c.main.Draining? && !Leaving(c.main) ==> c.errChan == if c.sender.Pushing? then 0 else errors)
    && (Leaving(c.main) ==> c.errChan == 0)
  }

  lemma ErrorStep(c: Control, errors: nat, l: Label)
    requires Places(c) && ErrorWaits(c, errors) && Enabled(c, l)
    ensures ErrorWaits(Act(c, l), errors + if l.ReadErr? || l == SendDone(false) then 1 else 0)
  {
    if OfMain(l) {
      ErrorStepOfMain(c, errors, l);
    } else if l.Leave? {
      ErrorStepOfLeave(c, errors);
    }
  }

  lemma ErrorStepOfMain(c: Control, errors: nat, l: Label)
    requires Places(c) && ErrorWaits(c, errors) && Enabled(c, l) && OfMain(l)
    ensures ErrorWaits(Act(c, l), errors)
  {
  }

  lemma ErrorStepOfLeave(c: Control, errors: nat)
    requires Places(c) && ErrorWaits(c, errors) && Enabled(c, Leave)
    ensures ErrorWaits(Act(c, Leave), errors)
  {
  }

  /** The error of the sending thread is never lost before the join and never left behind it. */
  lemma {:induction false} JoinDrainsError(labels: seq<Label>)
    ensures ErrorWaits(Run(INIT, labels).c, ErrorsIn(Taken(labels)))
    decreases |labels|
  {
    if labels != [] {
      var front, last := labels[..|labels| - 1], labels[|labels| - 1];
      JoinDrainsError(front);
      RunKeepsInv(front);
      if Enabled(Run(INIT, front).c, last) {
        ErrorStep(Run(INIT, front).c, ErrorsIn(Taken(front)), last);
        assert (Taken(front) + [last])[..|Taken(front)|] == Taken(front);
      } else {
        assert Taken(front) + [] == Taken(front);
      }
    }
  }

  // ---- The join ends ----

  /** The reader is being stopped: the context is cancelled, or there is nothing to join. */
  predicate Winding(c: Control) {
    (c.main.StopClose? || c.main.Draining? || Leaving(c.main)) && (c.cancelled || c.sender.Absent?)
  }

  function SenderRank(p: SenderPc): nat {
    match p
    case Reading => 10
    case Sending(_) => 8
    case Polling => 6
    case Pushing => 6
    case Cancelling => 4
    case ClosingSend => 3
    case ClosingChan => 2
    case Exited => 0
    case Absent => 0
  }

  function MainRank(p: MainPc): nat {
    match p
    case StopClose => 5
    case Draining => 4
    case DeferStop => 3
    case DeferClose => 2
    case DeferCancel => 1
    case _ => 0
  }

  function CallbackRank(p: CallbackPc): nat {
    match p
    case Armed => 2
    case Fired => 1
    case _ => 0
  }

  function Rank(c: Control): nat {
    SenderRank(c.sender) + MainRank(c.main) + CallbackRank(c.callback) + c.errChan + if c.cancelled then 0 else 2
  }

  lemma StopLowersRank(c: Control)
    requires Places(c) && Winding(c) && Enabled(c, Stop)
    ensures Winding(Act(c, Stop)) && Rank(Act(c, Stop)) < Rank(c)
  {
  }

  lemma LeaveLowersRank(c: Control)
    requires Places(c) && Winding(c) && Enabled(c, Leave)
    ensures Winding(Act(c, Leave)) && Rank(Act(c, Leave)) < Rank(c)
  {
  }

  /** From then on every step of any thread makes progress. */
  lemma RankDecreases(c: Control, l: Label)
    requires Places(c) && Winding(c) && Enabled(c, l)
    ensures Winding(Act(c, l)) && Rank(Act(c, l)) < Rank(c)
  {
    match l
    case Stop => StopLowersRank(c);
    case Leave => LeaveLowersRank(c);
    case _ =>
  }

  ghost predicate AllEnabled(c: Control, labels: seq<Label>)
    decreases |labels|
  {
    labels != [] ==> Enabled(c, labels[0]) && AllEnabled(Act(c, labels[0]), labels[1..])
  }

  lemma {:induction false} WindingRunIsShort(c: Control, labels: seq<Label>)
    requires Places(c) && Winding(c) && AllEnabled(c, labels)
    ensures |labels| <= Rank(c)
    decreases |labels|
  {
    if labels != [] {
      RankDecreases(c, labels[0]);
      PlacesStep(c, labels[0]);
      WindingRunIsShort(Act(c, labels[0]), labels[1..]);
    }
  }

  /** Steps that wait for nobody outside: a read waits until the connection is closed, and a Send
      until the context is cancelled. */
  predicate Prompt(c: Control, l: Label) {
    && Enabled(c, l)
    && !l.ReadOk? && !l.ParentCancel?
    && (l.ReadErr? ==> c.closed)
    && (l.SendDone? ==> c.cancelled)
  }

  /** The first two steps of stopping the reader disarm the callback and cancel the context. */
  lemma {:induction false} StopCancels(labels: seq<Label>)
    requires Run(INIT, labels).c.main.StopCallback?
    ensures var c := Act(Act(Run(INIT, labels).c, Stop), Stop);
            Winding(c) && c.main.StopClose? && !c.callback.Armed?
  {
    RunKeepsInv(labels);
  }

  /** Until the call has returned there is always such a step: the join cannot deadlock. */
  lemma {:induction false} JoinNeverStuck(labels: seq<Label>)
    requires var c := Run(INIT, labels).c; Winding(c) && !c.main.Returned?
    ensures exists l :: Prompt(Run(INIT, labels).c, l)
  {
    RunKeepsInv(labels);
    var c := Run(INIT, labels).c;
    if c.main.Draining? && c.errChan == 0 && !c.chanClosed {
      if c.sender.Polling? {
        assert Prompt(c, Poll);
      } else if c.sender.Reading? {
        assert Prompt(c, ReadErr);
      } else if c.sender.Sending? {
        assert Prompt(c, SendDone(false));
      } else {
        assert Prompt(c, Leave);
      }
    } else {
      assert Prompt(c, Stop);
    }
  }

  /** And however the threads are scheduled, at most twenty steps are left: so the call returns. */
  lemma {:induction false} JoinEnds(labels: seq<Label>, more: seq<Label>)
    requires Winding(Run(INIT, labels).c) && AllEnabled(Run(INIT, labels).c, more)
    ensures |more| <= 20
  {
    RunKeepsInv(labels);
    WindingRunIsShort(Run(INIT, labels).c, more);
  }
}
