/** What the protocol guarantees in every run, for any clients under any interleaving. */
module StateGuarantees {
  import opened Bytes
  import opened StateStore
  import opened StateHistory
  import opened StateProtocol

  /** The host is always what the recorded operations give when run one after the other, each in
      one instant: Get, callback and swap never come apart. */
  lemma {:induction false} RunIsSequential(labels: seq<Label>)
    ensures var s := Run(INIT, labels); s.store == Replay(s.history)
    ensures WellFormed(Run(INIT, labels).store)
  {
    RunKeepsInv(labels);
    ReplayWellFormed(Run(INIT, labels).history);
  }

  /** A successful Update took effect at one place of the history, after it began, and there it
      replaced the stored value by its callback of that same value; the value it returned is that
      one, and it took effect nowhere else. */
  lemma {:induction false} UpdateIsAtomic(labels: seq<Label>, id: nat)
    requires var s := Run(INIT, labels);
             id in s.calls && s.calls[id].program.Update? && s.calls[id].pc.Done? && s.calls[id].pc.outcome.Wrote?
    ensures var s := Run(INIT, labels);
            var c := s.calls[id];
            var at, key := c.pc.outcome.at, c.program.key;
            && c.since <= at < |s.history|
            && c.program.f(ReadValue(Replay(s.history[..at]), key)) == Some(c.pc.outcome.value)
            && ReadValue(Replay(s.history[..at + 1]), key) == c.pc.outcome.value
            && (forall k :: k != key ==> CellAt(Replay(s.history[..at + 1]), k) == CellAt(Replay(s.history[..at]), k))
            && (forall i :: 0 <= i < |s.history| && i != at ==> s.history[i].call != id)
  {
    RunKeepsInv(labels);
    var s := Run(INIT, labels);
    var at := s.calls[id].pc.outcome.at;
    assert CallOk(s.history, id, s.calls[id]);
    CommitsNowhereElse(s, id);
    ReplayStep(s.history, at);
  }

  /** The call took effect, whether or not its reply was heard. */
  ghost predicate TookEffect(s: Sys, id: nat) {
    && id in s.calls && s.calls[id].pc.Done?
    && (s.calls[id].pc.outcome.Wrote? || s.calls[id].pc.outcome.Took? || s.calls[id].pc.outcome.Gone?
        || s.calls[id].pc.outcome.Unheard?)
  }

  ghost function PlaceOf(s: Sys, id: nat): nat
    requires TookEffect(s, id)
  {
    s.calls[id].pc.outcome.at
  }

  lemma CommitsNowhereElse(s: Sys, id: nat)
    requires Inv(s) && TookEffect(s, id)
    ensures forall i :: 0 <= i < |s.history| && i != PlaceOf(s, id) ==> s.history[i].call != id
  {
    forall i | 0 <= i < |s.history| && i != PlaceOf(s, id)
      ensures s.history[i].call != id
    {
      assert EventOk(s, i);
    }
  }

  /** A Take that was heard took effect at one place after it began: there it returned the instance that
      was stored, with its value and version, or that there was none, and left none behind. */
  lemma {:induction false} TakeIsAtomic(labels: seq<Label>, id: nat)
    requires var s := Run(INIT, labels);
             id in s.calls && s.calls[id].pc.Done? && s.calls[id].pc.outcome.Took?
    ensures var s := Run(INIT, labels);
            var c := s.calls[id];
            var key, took := c.program.key, c.pc.outcome;
            && c.since <= took.at < |s.history|
            && (took.found <==> key in Replay(s.history[..took.at]).cells)
            && (took.found ==> CellAt(Replay(s.history[..took.at]), key) == Some(Cell(took.value, took.version)))
            && (!took.found ==> took.value == "" && took.version == 0)
            && key !in Replay(s.history[..took.at + 1]).cells
            && (forall k :: k != key ==>
                  CellAt(Replay(s.history[..took.at + 1]), k) == CellAt(Replay(s.history[..took.at]), k))
  {
    RunKeepsInv(labels);
    var s := Run(INIT, labels);
    assert CallOk(s.history, id, s.calls[id]);
    ReplayStep(s.history, s.calls[id].pc.outcome.at);
  }

  /** A successful Store left exactly its value, whatever was stored before. */
  lemma {:induction false} StoreLeavesItsValue(labels: seq<Label>, id: nat, key: Key, value: Value)
    requires var s := Run(INIT, labels);
             id in s.calls && s.calls[id].program == StoreProgram(key, value)
             && s.calls[id].pc.Done? && s.calls[id].pc.outcome.Wrote?
    ensures var s := Run(INIT, labels);
            var at := s.calls[id].pc.outcome.at;
            at < |s.history| && ReadValue(Replay(s.history[..at + 1]), key) == value
  {
    UpdateIsAtomic(labels, id);
  }

  /** A call that failed, whatever the reason, changed nothing. */
  lemma {:induction false} FailureChangesNothing(labels: seq<Label>, id: nat)
    requires var s := Run(INIT, labels);
             id in s.calls && s.calls[id].pc.Done? && s.calls[id].pc.outcome.Failed?
    ensures forall i :: 0 <= i < |Run(INIT, labels).history| ==> Run(INIT, labels).history[i].call != id
  {
    RunKeepsInv(labels);
    assert CallOk(Run(INIT, labels).history, id, Run(INIT, labels).calls[id]);
  }

  /** A call whose reply was lost, and which therefore reports an error too, did once what it was to do,
      after it began, and nothing else. */
  lemma {:induction false} UnheardTookEffectOnce(labels: seq<Label>, id: nat)
    requires var s := Run(INIT, labels);
             id in s.calls && s.calls[id].pc.Done? && s.calls[id].pc.outcome.Unheard?
    ensures var s := Run(INIT, labels);
            var at := s.calls[id].pc.outcome.at;
            && s.calls[id].since <= at < |s.history|
            && Causes(s.history, at, id, s.calls[id].program)
            && forall i :: 0 <= i < |s.history| && i != at ==> s.history[i].call != id
  {
    RunKeepsInv(labels);
    assert CallOk(Run(INIT, labels).history, id, Run(INIT, labels).calls[id]);
    CommitsNowhereElse(Run(INIT, labels), id);
  }

  /** A call that is over has not been left without its reply. */
  ghost predicate Heard(s: Sys, id: nat) {
    id in s.calls && s.calls[id].pc.Done? ==> !s.calls[id].pc.outcome.Unheard?
  }

  lemma HeardNext(s: Sys, l: Label, id: nat)
    requires !l.Lose? && Heard(s, id)
    ensures Heard(Next(s, l), id)
  {
  }

  /** That only happens where a reply is lost. */
  lemma {:induction false} HeardIfNothingLost(labels: seq<Label>, id: nat)
    requires forall i :: 0 <= i < |labels| ==> !labels[i].Lose?
    ensures Heard(Run(INIT, labels), id)
    decreases |labels|
  {
    if labels != [] {
      HeardIfNothingLost(labels[..|labels| - 1], id);
      HeardNext(Run(INIT, labels[..|labels| - 1]), labels[|labels| - 1], id);
    }
  }

  /** A contention error is earned: sixteen attempts one after the other, and between the Get and the
      swap of each of them another call changed that key, all after this call began. */
  lemma {:induction false} ContentionIsEarned(labels: seq<Label>, id: nat)
    requires var s := Run(INIT, labels);
             id in s.calls && s.calls[id].pc == Done(Failed(Contention))
    ensures var s := Run(INIT, labels);
            var c := s.calls[id];
            && |c.conflicts| == 16
            && (forall i :: 0 <= i < 16 ==> Earned(s.history, id, c.program.key, c.since, c.conflicts[i]))
            && (forall i, j :: 0 <= i < j < 16 ==> c.conflicts[i].lost <= c.conflicts[j].got)
  {
    RunKeepsInv(labels);
    assert CallOk(Run(INIT, labels).history, id, Run(INIT, labels).calls[id]);
  }

  // ---- Real time ----

  lemma {:induction false} FinishedStays(s: Sys, more: seq<Label>, a: nat)
    requires a in s.calls && s.calls[a].pc.Done?
    ensures a in Run(s, more).calls && Run(s, more).calls[a] == s.calls[a]
    decreases |more|
  {
    if more != [] {
      FinishedStays(s, more[..|more| - 1], a);
    }
  }

  lemma NextBegins(s: Sys, l: Label, b: nat, since: nat)
    requires |s.history| >= since && (b in s.calls ==> s.calls[b].since >= since)
    ensures |Next(s, l).history| >= since && (b in Next(s, l).calls ==> Next(s, l).calls[b].since >= since)
  {
  }

  lemma {:induction false} BegunLater(s: Sys, more: seq<Label>, b: nat)
    requires b !in s.calls
    ensures |Run(s, more).history| >= |s.history|
    ensures b in Run(s, more).calls ==> Run(s, more).calls[b].since >= |s.history|
    decreases |more|
  {
    if more != [] {
      BegunLater(s, more[..|more| - 1], b);
      NextBegins(Run(s, more[..|more| - 1]), more[|more| - 1], b, |s.history|);
    }
  }

  lemma PlacedWithin(s: Sys, id: nat)
    requires Inv(s) && TookEffect(s, id)
    ensures s.calls[id].since <= PlaceOf(s, id) < |s.history|
  {
    assert CallOk(s.history, id, s.calls[id]);
  }

  /** The order of the history respects real time: a call that had returned before another one began
      took effect before it. */
  lemma {:induction false} RealTimeOrder(labels: seq<Label>, more: seq<Label>, a: nat, b: nat)
    requires TookEffect(Run(INIT, labels), a) && b !in Run(INIT, labels).calls
    requires TookEffect(Run(INIT, labels + more), b)
    ensures TookEffect(Run(INIT, labels + more), a)
    ensures PlaceOf(Run(INIT, labels + more), a) < PlaceOf(Run(INIT, labels + more), b)
  {
    var s := Run(INIT, labels);
    RunsOn(INIT, labels, more);
    RunKeepsInv(labels);
    RunKeepsInv(labels + more);
    PlacedWithin(s, a);
    FinishedStays(s, more, a);
    BegunLater(s, more, b);
    PlacedWithin(Run(INIT, labels + more), b);
  }

  ghost predicate NotAbout(labels: seq<Label>, id: nat) {
    forall i :: 0 <= i < |labels| ==> labels[i].id != id
  }

  lemma {:induction false} OthersLeaveCallAlone(s: Sys, labels: seq<Label>, id: nat)
    requires NotAbout(labels, id) && id in s.calls
    ensures id in Run(s, labels).calls && Run(s, labels).calls[id] == s.calls[id]
    decreases |labels|
  {
    if labels != [] {
      OthersLeaveCallAlone(s, labels[..|labels| - 1], id);
    }
  }

  lemma {:induction false} RunKeepsInvFrom(s: Sys, labels: seq<Label>)
    requires Inv(s)
    ensures Inv(Run(s, labels))
    decreases |labels|
  {
    if labels != [] {
      RunKeepsInvFrom(s, labels[..|labels| - 1]);
      NextKeepsInv(Run(s, labels[..|labels| - 1]), labels[|labels| - 1]);
    }
  }

  /** An Update that has begun and waits for its turn to read. */
  lemma {:induction false} BegunUpdate(labels: seq<Label>, id: nat, key: Key, f: Callback, before: seq<Label>)
    requires id !in Run(INIT, labels).calls && NotAbout(before, id)
    ensures var began := Next(Run(INIT, labels), Start(id, Update(key, f)));
            var s := Run(began, before);
            Inv(s) && id in began.calls && id in s.calls && s.calls[id] == began.calls[id]
  {
    RunKeepsInv(labels);
    var began := Next(Run(INIT, labels), Start(id, Update(key, f)));
    NextKeepsInv(Run(INIT, labels), Start(id, Update(key, f)));
    RunKeepsInvFrom(began, before);
    OthersLeaveCallAlone(began, before, id);
  }

  /** A call that has read and waits for its turn to swap. */
  lemma {:induction false} ReadUpdate(atGet: Sys, id: nat, between: seq<Label>)
    requires Inv(atGet) && id in Next(atGet, Move(id)).calls && NotAbout(between, id)
    ensures var s := Run(Next(atGet, Move(id)), between);
            Inv(s) && id in s.calls && s.calls[id] == Next(atGet, Move(id)).calls[id]
  {
    NextKeepsInv(atGet, Move(id));
    RunKeepsInvFrom(Next(atGet, Move(id)), between);
    OthersLeaveCallAlone(Next(atGet, Move(id)), between, id);
  }

  /** Without interference on its key between its Get and its swap, an Update whose callback
      accepts the value succeeds on the first attempt, whatever else happens around it. */
  lemma {:induction false} UncontendedUpdateSucceeds(labels: seq<Label>, id: nat, key: Key, f: Callback,
                                                     before: seq<Label>, between: seq<Label>)
    requires id !in Run(INIT, labels).calls && NotAbout(before, id) && NotAbout(between, id)
    requires var atGet := Run(Next(Run(INIT, labels), Start(id, Update(key, f))), before);
             var atSwap := Run(Next(atGet, Move(id)), between);
             f(ReadValue(atGet.store, key)).Some? && LastChange(atSwap.history, key) < |atGet.history|
    ensures var atGet := Run(Next(Run(INIT, labels), Start(id, Update(key, f))), before);
            var atSwap := Run(Next(atGet, Move(id)), between);
            var end := Next(atSwap, Move(id));
            var out := f(ReadValue(atSwap.store, key));
            && id in end.calls && out.Some?
            && end.calls[id].pc == Done(Wrote(|atSwap.history|, out.value))
            && end.store == Put(atSwap.store, key, out.value)
  {
    BegunUpdate(labels, id, key, f, before);
    var atGet := Run(Next(Run(INIT, labels), Start(id, Update(key, f))), before);
    ReadUpdate(atGet, id, between);
    SwapDecides(Run(Next(atGet, Move(id)), between), id);
  }

  /** The same holds of every attempt up to the sixteenth: from wherever the call is about to read again,
      an undisturbed attempt writes, however many were lost before. */
  lemma {:induction false} EveryAttemptCanSucceed(labels: seq<Label>, id: nat, key: Key, f: Callback, attempt: nat,
                                                  between: seq<Label>)
    requires var s := Run(INIT, labels);
             && id in s.calls && s.calls[id].program == Update(key, f) && s.calls[id].pc == Getting(attempt)
             && NotAbout(between, id) && f(ReadValue(s.store, key)).Some?
             && LastChange(Run(Next(s, Move(id)), between).history, key) < |s.history|
    ensures var s := Run(INIT, labels);
            var atSwap := Run(Next(s, Move(id)), between);
            var end, out := Next(atSwap, Move(id)), f(ReadValue(atSwap.store, key));
            && attempt < 16 && id in end.calls && out.Some?
            && end.calls[id].pc == Done(Wrote(|atSwap.history|, out.value))
            && end.store == Put(atSwap.store, key, out.value)
  {
    RunKeepsInv(labels);
    var s := Run(INIT, labels);
    assert CallOk(s.history, id, s.calls[id]);
    ReadUpdate(s, id, between);
    SwapDecides(Run(Next(s, Move(id)), between), id);
  }

  /** And a lost swap is followed by another attempt, unless it was the sixteenth. */
  lemma {:induction false} LostSwapIsRetried(labels: seq<Label>, id: nat)
    requires var s := Run(INIT, labels); id in s.calls && s.calls[id].pc.BackingOff?
    ensures var s := Run(INIT, labels);
            var n := |s.calls[id].conflicts|;
            Next(s, Move(id)).calls[id].pc == if n < 16 then Getting(n) else Done(Failed(Contention))
  {
    RunKeepsInv(labels);
    assert CallOk(Run(INIT, labels).history, id, Run(INIT, labels).calls[id]);
  }

  // ---- Counting successful increments ----

  /** The key is only ever changed by updates that add one, by some measure of its value. */
  ghost predicate OnlyIncrements(h: seq<Event>, key: Key, measure: Value -> int) {
    forall i :: 0 <= i < |h| && h[i].key == key ==> h[i].Updated? && AddsOne(h[i].f, measure)
  }

  ghost predicate AddsOne(f: Callback, measure: Value -> int) {
    forall x :: f(x).Some? ==> measure(f(x).value) == measure(x) + 1
  }

  /** The calls that updated the key successfully. */
  ghost function Succeeded(s: Sys, key: Key): set<nat> {
    set id | id in s.calls && s.calls[id].program.Update? && s.calls[id].program.key == key
             && s.calls[id].pc.Done? && s.calls[id].pc.outcome.Wrote?
  }

  /** The calls that updated the key without hearing of it. */
  ghost function UnheardUpdates(s: Sys, key: Key): set<nat> {
    set id | id in s.calls && s.calls[id].program.Update? && s.calls[id].program.key == key
             && s.calls[id].pc.Done? && s.calls[id].pc.outcome.Unheard?
  }

  ghost function UpdatesOf(h: seq<Event>, key: Key): set<nat> {
    set i | 0 <= i < |h| && h[i].Updated? && h[i].key == key :: h[i].call
  }

  ghost predicate OnePerCall(h: seq<Event>) {
    forall i, j :: 0 <= i < j < |h| ==> h[i].call != h[j].call
  }

  ghost predicate CallbacksAccepted(h: seq<Event>) {
    forall i :: 0 <= i < |h| && h[i].Updated? ==> h[i].f(ReadValue(Replay(h[..i]), h[i].key)).Some?
  }

  lemma {:induction false} MeasureCountsUpdates(h: seq<Event>, key: Key, measure: Value -> int)
    requires OnlyIncrements(h, key, measure) && OnePerCall(h) && CallbacksAccepted(h)
    ensures measure(ReadValue(Replay(h), key)) == measure("") + |UpdatesOf(h, key)|
    decreases |h|
  {
    if h == [] {
      assert UpdatesOf(h, key) == {};
    } else {
      var n := |h| - 1;
      var front, e := h[..n], h[n];
      assert forall i :: 0 <= i < n ==> front[..i] == h[..i];
      MeasureCountsUpdates(front, key, measure);
      UpdatesOfLast(h, key);
      IncrementEffect(Replay(front), e, key, measure);
    }
  }

  lemma UpdatesOfLast(h: seq<Event>, key: Key)
    requires h != [] && OnePerCall(h)
    ensures var front, e := h[..|h| - 1], h[|h| - 1];
            && e.call !in UpdatesOf(front, key)
            && UpdatesOf(h, key) == UpdatesOf(front, key) + if e.Updated? && e.key == key then {e.call} else {}
  {
    var n := |h| - 1;
    var front, e := h[..n], h[n];
    assert forall i :: 0 <= i < n ==> front[i] == h[i];
    if e.Updated? && e.key == key {
      assert UpdatesOf(h, key) == UpdatesOf(front, key) + {e.call};
    } else {
      assert UpdatesOf(h, key) == UpdatesOf(front, key);
    }
  }

  lemma IncrementEffect(st: Store, e: Event, key: Key, measure: Value -> int)
    requires e.Updated? ==> e.f(ReadValue(st, e.key)).Some?
    requires e.key == key ==> e.Updated? && AddsOne(e.f, measure)
    ensures measure(ReadValue(Effect(st, e), key)) == measure(ReadValue(st, key)) + if e.key == key then 1 else 0
  {
    if e.key != key {
      assert ReadValue(Effect(st, e), key) == ReadValue(st, key);
    }
  }

  ghost predicate CommitsAt(s: Sys, i: nat)
    requires i < |s.history|
  {
    var id := s.history[i].call;
    && id in s.calls && s.calls[id].pc.Done?
    && !s.calls[id].pc.outcome.Failed? && !s.calls[id].pc.outcome.NothingToDelete?
    && s.calls[id].pc.outcome.at == i
    && Committed(s.history, id, s.calls[id])
  }

  lemma RecordedIsCommitted(s: Sys, i: nat)
    requires Inv(s) && i < |s.history|
    ensures CommitsAt(s, i)
  {
    assert EventOk(s, i);
    assert CallOk(s.history, s.history[i].call, s.calls[s.history[i].call]);
  }

  lemma AllRecordedAreCommitted(s: Sys)
    requires Inv(s)
    ensures forall i :: 0 <= i < |s.history| ==> CommitsAt(s, i)
  {
    forall i | 0 <= i < |s.history|
      ensures CommitsAt(s, i)
    {
      RecordedIsCommitted(s, i);
    }
  }

  lemma RecordedOnce(s: Sys)
    requires Inv(s)
    ensures OnePerCall(s.history)
  {
    forall i, j | 0 <= i < j < |s.history|
      ensures s.history[i].call != s.history[j].call
    {
      assert EventOk(s, i) && EventOk(s, j);
    }
  }

  lemma RecordedAccepted(s: Sys)
    requires Inv(s)
    ensures CallbacksAccepted(s.history)
  {
    forall i | 0 <= i < |s.history| && s.history[i].Updated?
      ensures s.history[i].f(ReadValue(Replay(s.history[..i]), s.history[i].key)).Some?
    {
      RecordedIsCommitted(s, i);
    }
  }

  lemma SucceededAreRecorded(s: Sys, key: Key)
    requires Inv(s)
    ensures Succeeded(s, key) + UnheardUpdates(s, key) == UpdatesOf(s.history, key)
  {
    AllRecordedAreCommitted(s);
    forall id | id in Succeeded(s, key) + UnheardUpdates(s, key)
      ensures id in UpdatesOf(s.history, key)
    {
      assert CallOk(s.history, id, s.calls[id]);
      assert s.history[s.calls[id].pc.outcome.at].call == id;
    }
    forall id | id in UpdatesOf(s.history, key)
      ensures id in Succeeded(s, key) + UnheardUpdates(s, key)
    {
      var i :| 0 <= i < |s.history| && s.history[i].Updated? && s.history[i].key == key && s.history[i].call == id;
      assert CommitsAt(s, i);
    }
  }

  /** No update is lost and none is applied twice: if the key is only incremented, its value has grown
      by exactly the number of calls that reported success, and of those whose reply was lost. */
  lemma {:induction false} IncrementsAddUp(labels: seq<Label>, key: Key, measure: Value -> int)
    requires OnlyIncrements(Run(INIT, labels).history, key, measure)
    ensures var s := Run(INIT, labels);
            && Succeeded(s, key) !! UnheardUpdates(s, key)
            && measure(ReadValue(s.store, key)) == measure("") + |Succeeded(s, key)| + |UnheardUpdates(s, key)|
  {
    RunKeepsInv(labels);
    RecordedOnce(Run(INIT, labels));
    RecordedAccepted(Run(INIT, labels));
    SucceededAreRecorded(Run(INIT, labels), key);
    MeasureCountsUpdates(Run(INIT, labels).history, key, measure);
  }

  // ---- Instances ----

  /** Each stored instance, identified by its version, is returned as found by at most one Take,
      and a Take that found nothing returns the absent reading. */
  lemma {:induction false} TakenAtMostOnce(labels: seq<Label>, a: nat, b: nat)
    requires var s := Run(INIT, labels);
             a in s.calls && b in s.calls && a != b
             && s.calls[a].pc.Done? && s.calls[a].pc.outcome.Took? && s.calls[a].pc.outcome.found
             && s.calls[b].pc.Done? && s.calls[b].pc.outcome.Took? && s.calls[b].pc.outcome.found
    ensures var s := Run(INIT, labels);
            s.calls[a].pc.outcome.version != s.calls[b].pc.outcome.version
  {
    RunKeepsInv(labels);
    var s := Run(INIT, labels);
    var i, j := s.calls[a].pc.outcome.at, s.calls[b].pc.outcome.at;
    TakeEnds(s, a);
    TakeEnds(s, b);
    assert EventOk(s, i) && EventOk(s, j);
    if i < j {
      EndsOnce(s.history, i, j);
    } else {
      EndsOnce(s.history, j, i);
    }
  }

  lemma TakeEnds(s: Sys, id: nat)
    requires Inv(s) && id in s.calls
    requires s.calls[id].pc.Done? && s.calls[id].pc.outcome.Took? && s.calls[id].pc.outcome.found
    ensures var outcome := s.calls[id].pc.outcome;
            && outcome.at < |s.history| && s.history[outcome.at].call == id
            && Ends(s.history, outcome.at) == outcome.version != 0
  {
    assert CallOk(s.history, id, s.calls[id]);
    var at := s.calls[id].pc.outcome.at;
    ReplayWellFormed(s.history[..at]);
    ReplayStep(s.history, at);
  }

  /** A versioned drop removes the key's instance exactly when nothing changed the key since the
      place where that version was seen. */
  lemma {:induction false} DropDecides(h: seq<Event>, at: nat, seenAt: nat, id: nat, key: Key)
    requires seenAt <= at < |h| && key in Replay(h[..seenAt]).cells
    requires h[at] == Dropped(id, key, VersionOf(Replay(h[..seenAt]), key))
    ensures Changes(h, at, key) <==> LastChange(h[..at], key) < seenAt
    ensures Changes(h, at, key) ==> CellAt(Replay(h[..at]), key) == CellAt(Replay(h[..seenAt]), key)
    ensures CellAt(Replay(h[..at + 1]), key) == if Changes(h, at, key) then None else CellAt(Replay(h[..at]), key)
  {
    ReplayStep(h, at);
    assert h[..at][..seenAt] == h[..seenAt];
    SameVersionSinceSeen(h[..at], seenAt, key);
  }

  lemma {:induction false} SameVersionSinceSeen(h: seq<Event>, seenAt: nat, key: Key)
    requires seenAt <= |h| && key in Replay(h[..seenAt]).cells
    ensures VersionOf(Replay(h[..seenAt]), key) != 0
    ensures VersionOf(Replay(h), key) == VersionOf(Replay(h[..seenAt]), key) <==> LastChange(h, key) < seenAt
    ensures LastChange(h, key) < seenAt ==> CellAt(Replay(h), key) == CellAt(Replay(h[..seenAt]), key)
  {
    ReplayWellFormed(h[..seenAt]);
    if LastChange(h, key) < seenAt {
      UnchangedSince(h, key, seenAt);
    } else if VersionOf(Replay(h), key) == VersionOf(Replay(h[..seenAt]), key) {
      SameVersionMeansUntouched(h, key, seenAt);
    }
  }

  /** A finished Delete removed the very instance it had observed, or nothing at all; and it did
      remove it exactly when that instance was still the one stored. */
  lemma {:induction false} DeleteRemovesOnlyWhatItSaw(labels: seq<Label>, id: nat)
    requires var s := Run(INIT, labels);
             id in s.calls && s.calls[id].pc.Done? && s.calls[id].pc.outcome.Gone?
    ensures var s := Run(INIT, labels);
            var c := s.calls[id];
            var h, key := s.history, c.program.key;
            var at, seenAt := c.pc.outcome.at, c.pc.outcome.seenAt;
            && c.since <= seenAt <= at < |h|
            && var seen := CellAt(Replay(h[..seenAt]), key);
            && seen.Some?
            && (Changes(h, at, key) <==> LastChange(h[..at], key) < seenAt)
            && (Changes(h, at, key) ==> CellAt(Replay(h[..at]), key) == seen)
            && CellAt(Replay(h[..at + 1]), key) == (if Changes(h, at, key) then None else CellAt(Replay(h[..at]), key))
  {
    RunKeepsInv(labels);
    var s := Run(INIT, labels);
    var c := s.calls[id];
    var h, key := s.history, c.program.key;
    assert CallOk(h, id, c);
    var at, seenAt := c.pc.outcome.at, c.pc.outcome.seenAt;
    DropDecides(h, at, seenAt, id, key);
  }

  ghost predicate HasWritten(s: Sys, id: nat) {
    && id in s.calls && s.calls[id].pc.Done? && s.calls[id].pc.outcome.Wrote?
    && s.calls[id].pc.outcome.at < |s.history|
  }

  /** The version that a successful update left under its key. */
  ghost function IssuedBy(s: Sys, id: nat): nat
    requires HasWritten(s, id)
  {
    VersionOf(Replay(s.history[..s.calls[id].pc.outcome.at + 1]), s.calls[id].program.key)
  }

  lemma {:induction false} UpdatesAreFew(h: seq<Event>)
    ensures UpdatesIn(h) <= |h|
  {
    if h != [] {
      UpdatesAreFew(h[..|h| - 1]);
    }
  }

  lemma {:induction false} HistoryIsShort(labels: seq<Label>)
    ensures |Run(INIT, labels).history| <= |labels|
  {
    if labels != [] {
      HistoryIsShort(labels[..|labels| - 1]);
    }
  }

  /** Issued versions strictly increase: the update at a later place issues a larger version, so
      none is ever issued twice. None exceeds the length of the run, so a 64-bit sequence does not
      wrap in a run of fewer than 2^64 steps. */
  lemma {:induction false} VersionsIncrease(labels: seq<Label>, a: nat, b: nat)
    requires HasWritten(Run(INIT, labels), a) && HasWritten(Run(INIT, labels), b)
    requires Run(INIT, labels).calls[a].pc.outcome.at < Run(INIT, labels).calls[b].pc.outcome.at
    ensures IssuedBy(Run(INIT, labels), a) < IssuedBy(Run(INIT, labels), b) <= |labels|
  {
    RunKeepsInv(labels);
    LaterIssuesLarger(Run(INIT, labels), a, b);
    IssuedIsShort(Run(INIT, labels), b);
    HistoryIsShort(labels);
  }

  lemma IssuedIsShort(s: Sys, id: nat)
    requires Inv(s) && HasWritten(s, id)
    ensures IssuedBy(s, id) <= |s.history|
  {
    var before := s.history[..s.calls[id].pc.outcome.at + 1];
    UpdateIssues(s, id);
    SequenceCountsUpdates(before);
    UpdatesAreFew(before);
  }

  lemma LaterIssuesLarger(s: Sys, a: nat, b: nat)
    requires Inv(s) && HasWritten(s, a) && HasWritten(s, b)
    requires s.calls[a].pc.outcome.at < s.calls[b].pc.outcome.at
    ensures IssuedBy(s, a) < IssuedBy(s, b)
  {
    UpdateIssues(s, a);
    UpdateIssues(s, b);
    SequenceGrows(s.history, s.calls[a].pc.outcome.at + 1, s.calls[b].pc.outcome.at);
  }

  lemma SequenceGrows(h: seq<Event>, i: nat, j: nat)
    requires i <= j <= |h|
    ensures Replay(h[..i]).sequence <= Replay(h[..j]).sequence
  {
    assert h[..j][..i] == h[..i];
    SequenceNeverShrinks(h[..j], i);
  }

  lemma UpdateIssues(s: Sys, id: nat)
    requires Inv(s) && HasWritten(s, id)
    ensures var at := s.calls[id].pc.outcome.at;
            && IssuedBy(s, id) == Replay(s.history[..at + 1]).sequence
            && Replay(s.history[..at + 1]).sequence == Replay(s.history[..at]).sequence + 1
  {
    assert CallOk(s.history, id, s.calls[id]);
    ReplayStep(s.history, s.calls[id].pc.outcome.at);
  }
}
