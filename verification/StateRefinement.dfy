/**
 * The client's own code is one of the calls of the protocol: whatever the retry loop of Update or the
 * two calls of Delete do to the real host among rivals, the protocol machine has a run that leaves the
 * same store and ends that call in the same way, with every rival's host call made by a call of its own.
 * So the guarantees about all runs of the machine are guarantees about this code.
 */
module StateRefinement {
  import opened Bytes
  import opened StateStore
  import opened StateHistory
  import opened StateProtocol
  import StateClient

  // ---- Rivals as calls of the protocol ----

  /** A host call that changes the store, made by a fresh call `n`; any other is no step at all. */
  ghost function RivalLabels(st: Store, a: Action, n: nat): seq<Label> {
    match a
    case Take(key) => [Start(n, TakeOne(key)), Move(n)]
    case Cas(key, version, value) =>
      if version == VersionOf(st, key) then [Start(n, StoreProgram(key, value)), Move(n), Move(n)] else []
    case Delete(key, version) =>
      if key in st.cells && version == VersionOf(st, key) then [Start(n, DeleteSeen(key)), Move(n), Move(n)] else []
    case _ => []
  }

  /** One call after the other, each by a call of its own. */
  ghost function LabelsOf(step: (Store, Action, nat) -> seq<Label>, st: Store, actions: seq<Action>, n: nat)
    : seq<Label>
  {
    if actions == [] then []
    else
      var k := |actions| - 1;
      LabelsOf(step, st, actions[..k], n) + step(StateClient.After(st, actions[..k]), actions[k], n + k)
  }

  ghost predicate Below(s: Sys, n: nat) {
    forall k :: k in s.calls ==> k < n
  }

  /** From `s` to `t` the calls of `s` stay as they are. */
  ghost predicate Keeps(s: Sys, t: Sys) {
    forall k :: k in s.calls ==> k in t.calls && t.calls[k] == s.calls[k]
  }

  lemma {:induction false} RunsOne(s: Sys, labels: seq<Label>, l: Label)
    ensures Run(s, labels + [l]) == Next(Run(s, labels), l)
  {
    assert (labels + [l])[..|labels|] == labels;
  }

  lemma {:induction false} RunsJust(s: Sys, l: Label)
    ensures Run(s, [l]) == Next(s, l)
  {
    var none: seq<Label> := [];
    RunsOne(s, none, l);
    assert none + [l] == [l];
    assert Run(s, none) == s;
  }

  lemma {:induction false} RunsTwo(s: Sys, a: Label, b: Label)
    ensures Run(s, [a, b]) == Next(Next(s, a), b)
  {
    RunsJust(s, a);
    RunsOne(s, [a], b);
    assert [a] + [b] == [a, b];
  }

  lemma {:induction false} RunsThree(s: Sys, a: Label, b: Label, c: Label)
    ensures Run(s, [a, b, c]) == Next(Next(Next(s, a), b), c)
  {
    RunsTwo(s, a, b);
    RunsOne(s, [a, b], c);
    assert [a, b] + [c] == [a, b, c];
  }

  lemma {:induction false} RunsThrough(s: Sys, first: seq<Label>, l: Label, second: seq<Label>)
    ensures Run(s, first + [l] + second) == Run(Next(Run(s, first), l), second)
  {
    RunsOn(s, first + [l], second);
    RunsOne(s, first, l);
  }

  lemma TakeRuns(s: Sys, key: Key, n: nat)
    requires Below(s, n)
    ensures var t := Next(Next(s, Start(n, TakeOne(key))), Move(n));
            t.store == Apply(s.store, Take(key)).0 && Below(t, n + 1) && Keeps(s, t)
  {
  }

  lemma StoreRuns(s: Sys, key: Key, value: Value, n: nat)
    requires Below(s, n)
    ensures var t := Next(Next(Next(s, Start(n, StoreProgram(key, value))), Move(n)), Move(n));
            t.store == Put(s.store, key, value) && Below(t, n + 1) && Keeps(s, t)
  {
    var t1 := Next(s, Start(n, StoreProgram(key, value)));
    assert t1.calls[n].program.f(ReadValue(s.store, key)) == Some(value);
    var t2 := Next(t1, Move(n));
    assert t2.store == s.store && t2.calls[n].program == t1.calls[n].program;
    assert t2.calls[n].pc == Swapping(0, |s.history|, VersionOf(s.store, key), value);
  }

  lemma DropRuns(s: Sys, key: Key, n: nat)
    requires Below(s, n) && key in s.store.cells
    ensures var t := Next(Next(Next(s, Start(n, DeleteSeen(key))), Move(n)), Move(n));
            t.store == Remove(s.store, key) && Below(t, n + 1) && Keeps(s, t)
  {
    var t2 := Next(Next(s, Start(n, DeleteSeen(key))), Move(n));
    assert t2.calls[n].pc == Deleting(|s.history|, VersionOf(s.store, key));
  }

  lemma {:induction false} RivalRuns(s: Sys, a: Action, n: nat)
    requires Below(s, n)
    ensures var t := Run(s, RivalLabels(s.store, a, n));
            t.store == Apply(s.store, a).0 && Below(t, n + 1) && Keeps(s, t)
  {
    match a {
      case Take(key) =>
        RunsTwo(s, Start(n, TakeOne(key)), Move(n));
        TakeRuns(s, key, n);
      case Cas(key, version, value) =>
        RunsThree(s, Start(n, StoreProgram(key, value)), Move(n), Move(n));
        StoreRuns(s, key, value, n);
      case Delete(key, version) =>
        if key in s.store.cells {
          RunsThree(s, Start(n, DeleteSeen(key)), Move(n), Move(n));
          DropRuns(s, key, n);
        } else {
          assert Remove(s.store, key) == s.store;
        }
      case _ =>
    }
  }

  /** These labels do what one host call does, by a fresh call. */
  ghost predicate Simulates(step: (Store, Action, nat) -> seq<Label>) {
    forall s: Sys, a: Action, n: nat :: Below(s, n) ==>
      LedTo(s, Run(s, step(s.store, a, n)), Apply(s.store, a).0, n + 1)
  }

  /** Other calls led from `s` to `t`. */
  ghost predicate LedTo(s: Sys, t: Sys, store: Store, n: nat) {
    t.store == store && Below(t, n) && Keeps(s, t)
  }

  lemma RivalsSimulate()
    ensures Simulates(RivalLabels)
  {
    forall s: Sys, a: Action, n: nat | Below(s, n)
      ensures LedTo(s, Run(s, RivalLabels(s.store, a, n)), Apply(s.store, a).0, n + 1)
    {
      RivalRuns(s, a, n);
    }
  }

  lemma OneMoreCall(step: (Store, Action, nat) -> seq<Label>, s: Sys, front: seq<Label>, store: Store, a: Action,
                    n: nat, end: Store, m: nat)
    returns (t: Sys)
    requires Simulates(step) && LedTo(s, Run(s, front), store, n) && end == Apply(store, a).0 && m == n + 1
    ensures t == Run(s, front + step(store, a, n)) && LedTo(s, t, end, m)
  {
    var mid := Run(s, front);
    t := Run(mid, step(mid.store, a, n));
    assert LedTo(mid, t, Apply(mid.store, a).0, n + 1);
    RunsOn(s, front, step(store, a, n));
  }

  /** What others do between two host calls of the client is a run that leaves every call as it is. */
  lemma {:induction false} CallsRun(step: (Store, Action, nat) -> seq<Label>, s: Sys, st: Store, actions: seq<Action>,
                                    n: nat)
    returns (t: Sys)
    requires Simulates(step) && Below(s, n) && st == s.store
    ensures t == Run(s, LabelsOf(step, st, actions, n))
    ensures LedTo(s, t, StateClient.After(st, actions), n + |actions|)
    decreases |actions|
  {
    if actions == [] {
      t := s;
    } else {
      var k := |actions| - 1;
      t := CallsRun(step, s, st, actions[..k], n);
      t := OneMoreCall(step, s, LabelsOf(step, st, actions[..k], n), StateClient.After(st, actions[..k]), actions[k],
                       n + k, StateClient.After(st, actions), n + |actions|);
    }
  }

  // ---- One round of the retry loop ----

  ghost function Before(st: Store, w: StateClient.World, attempt: nat): Store {
    if attempt == 0 then st else StateClient.AtSwap(st, w, attempt - 1)
  }

  /** The first free call when the client comes to its g-th gap. */
  ghost function FreshIn(w: StateClient.World, n: nat, g: nat): nat {
    if g == 0 then n else FreshIn(w, n, g - 1) + |w.rivals(g - 1)|
  }

  /** The rivals' steps before an attempt's Get, and between that and its swap. */
  ghost function FirstGap(st: Store, w: StateClient.World, n: nat, attempt: nat): seq<Label> {
    LabelsOf(RivalLabels, Before(st, w, attempt), w.rivals(2 * attempt), FreshIn(w, n, 2 * attempt))
  }

  ghost function SecondGap(st: Store, w: StateClient.World, n: nat, attempt: nat): seq<Label> {
    LabelsOf(RivalLabels, StateClient.AtGet(st, w, attempt), w.rivals(2 * attempt + 1), FreshIn(w, n, 2 * attempt + 1))
  }

  /** Up to the second host call of an attempt: the rivals, the client's Get, the rivals again. */
  ghost function Reading(st: Store, w: StateClient.World, id: nat, n: nat, attempt: nat): seq<Label> {
    FirstGap(st, w, n, attempt) + [Move(id)] + SecondGap(st, w, n, attempt)
  }

  /** A call of this program among calls below `n`, with the host's store. */
  ghost predicate Stands(s: Sys, id: nat, program: Program, pc: Pc, store: Store, n: nat) {
    id in s.calls && s.calls[id].program == program && s.calls[id].pc == pc && s.store == store && Below(s, n)
  }

  /** The client waits while rivals act. */
  lemma Waits(s: Sys, id: nat, program: Program, pc: Pc, store: Store, n: nat, actions: seq<Action>)
    requires Stands(s, id, program, pc, store, n)
    ensures Stands(Run(s, LabelsOf(RivalLabels, store, actions, n)), id, program, pc, StateClient.After(store, actions),
                   n + |actions|)
  {
    RivalsSimulate();
    var t := CallsRun(RivalLabels, s, store, actions, n);
  }

  lemma {:induction false} WaitsFirst(s: Sys, id: nat, program: Program, pc: Pc, st: Store, w: StateClient.World,
                                      n: nat, attempt: nat)
    requires Stands(s, id, program, pc, Before(st, w, attempt), FreshIn(w, n, 2 * attempt))
    ensures Stands(Run(s, FirstGap(st, w, n, attempt)), id, program, pc, StateClient.AtGet(st, w, attempt),
                   FreshIn(w, n, 2 * attempt + 1))
  {
    Waits(s, id, program, pc, Before(st, w, attempt), FreshIn(w, n, 2 * attempt), w.rivals(2 * attempt));
  }

  lemma {:induction false} WaitsSecond(s: Sys, id: nat, program: Program, pc: Pc, st: Store, w: StateClient.World,
                                       n: nat, attempt: nat)
    requires Stands(s, id, program, pc, StateClient.AtGet(st, w, attempt), FreshIn(w, n, 2 * attempt + 1))
    ensures Stands(Run(s, SecondGap(st, w, n, attempt)), id, program, pc, StateClient.AtSwap(st, w, attempt),
                   FreshIn(w, n, 2 * attempt + 2))
  {
    Waits(s, id, program, pc, StateClient.AtGet(st, w, attempt), FreshIn(w, n, 2 * attempt + 1),
          w.rivals(2 * attempt + 1));
  }

  /** The Get brings the call from one pc to the next, with rivals before and after. */
  lemma {:induction false} ReadsOn(s: Sys, id: nat, program: Program, next: Pc, st: Store, w: StateClient.World, n: nat,
                                   attempt: nat)
    requires var t := Next(Run(s, FirstGap(st, w, n, attempt)), Move(id));
             Stands(t, id, program, next, StateClient.AtGet(st, w, attempt), FreshIn(w, n, 2 * attempt + 1))
    ensures Stands(Run(s, Reading(st, w, id, n, attempt)), id, program, next, StateClient.AtSwap(st, w, attempt),
                   FreshIn(w, n, 2 * attempt + 2))
  {
    var first, second := FirstGap(st, w, n, attempt), SecondGap(st, w, n, attempt);
    WaitsSecond(Next(Run(s, first), Move(id)), id, program, next, st, w, n, attempt);
    RunsThrough(s, first, Move(id), second);
  }

  /** What a call of Update holds after its Get. */
  ghost predicate Holds(pc: Pc, key: Key, f: Callback, st: Store, w: StateClient.World, attempt: nat) {
    var atGet := StateClient.AtGet(st, w, attempt);
    && pc.Swapping? && pc.attempt == attempt && pc.version == VersionOf(atGet, key)
    && f(ReadValue(atGet, key)) == Some(pc.value)
  }

  lemma GetHolds(s: Sys, id: nat, key: Key, f: Callback, st: Store, w: StateClient.World, attempt: nat, n: nat)
    returns (next: Pc)
    requires Stands(s, id, Update(key, f), Getting(attempt), StateClient.AtGet(st, w, attempt), n)
    requires f(ReadValue(StateClient.AtGet(st, w, attempt), key)).Some?
    ensures Holds(next, key, f, st, w, attempt)
    ensures Stands(Next(s, Move(id)), id, Update(key, f), next, s.store, n)
  {
    next := Next(s, Move(id)).calls[id].pc;
  }

  /** The call has read and the rivals have acted since. */
  ghost predicate HasRead(s: Sys, id: nat, key: Key, f: Callback, st: Store, w: StateClient.World, attempt: nat,
                          n: nat)
  {
    && id in s.calls && Holds(s.calls[id].pc, key, f, st, w, attempt)
    && Stands(s, id, Update(key, f), s.calls[id].pc, StateClient.AtSwap(st, w, attempt), n)
  }

  lemma {:induction false} Reads(s: Sys, id: nat, key: Key, f: Callback, st: Store, w: StateClient.World, attempt: nat,
                                 n: nat)
    requires Stands(s, id, Update(key, f), Getting(attempt), Before(st, w, attempt), FreshIn(w, n, 2 * attempt))
    requires f(ReadValue(StateClient.AtGet(st, w, attempt), key)).Some?
    ensures HasRead(Run(s, Reading(st, w, id, n, attempt)), id, key, f, st, w, attempt, FreshIn(w, n, 2 * attempt + 2))
  {
    WaitsFirst(s, id, Update(key, f), Getting(attempt), st, w, n, attempt);
    var next := GetHolds(Run(s, FirstGap(st, w, n, attempt)), id, key, f, st, w, attempt,
                         FreshIn(w, n, 2 * attempt + 1));
    ReadsOn(s, id, Update(key, f), next, st, w, n, attempt);
  }

  // ---- Lost rounds ----

  /** The pc after `k` lost attempts. */
  ghost function Tried(k: nat): Pc {
    if k < MAX_ATTEMPTS then Getting(k) else Done(Failed(Contention))
  }

  lemma SwapIsLost(s: Sys, id: nat, key: Key, f: Callback, st: Store, w: StateClient.World, attempt: nat, n: nat)
    requires WellFormed(st) && HasRead(s, id, key, f, st, w, attempt, n) && attempt < MAX_ATTEMPTS
    requires StateClient.Disturbed(st, w, key, attempt)
    ensures Stands(Next(s, Move(id)), id, Update(key, f), BackingOff(attempt), s.store, n)
    ensures Stands(Next(s, Lose(id)), id, Update(key, f), Done(Failed(NoReply)), s.store, n)
  {
    StateClient.AttemptsWellFormed(st, w, attempt);
    StateClient.SameVersionDecides(st, w, key, attempt);
  }

  lemma SwapGoesThrough(s: Sys, id: nat, key: Key, f: Callback, st: Store, w: StateClient.World, attempt: nat, n: nat,
                        value: Value, end: Store)
    requires WellFormed(st) && HasRead(s, id, key, f, st, w, attempt, n)
    requires StateClient.Swapped(st, w, key, f, attempt, value, end)
    ensures Stands(Next(s, Move(id)), id, Update(key, f), Done(Wrote(|s.history|, value)), end, n)
    ensures Stands(Next(s, Lose(id)), id, Update(key, f), Done(Outcome.Unheard(|s.history|)), end, n)
  {
    StateClient.AttemptsWellFormed(st, w, attempt);
    StateClient.SameVersionDecides(st, w, key, attempt);
  }

  /** The client begins and loses `k` rounds: in each it reads, swaps and backs off, with the rivals in
      the gaps. */
  ghost function LostLabels(st: Store, w: StateClient.World, start: Label, id: nat, n: nat, k: nat): seq<Label> {
    if k == 0 then [start]
    else LostLabels(st, w, start, id, n, k - 1) + (Reading(st, w, id, n, k - 1) + [Move(id), Move(id)])
  }

  lemma {:induction false} LosesRound(s: Sys, id: nat, key: Key, f: Callback, st: Store, w: StateClient.World, n: nat,
                                      attempt: nat)
    requires WellFormed(st) && attempt < MAX_ATTEMPTS && StateClient.LostRound(st, w, key, f, attempt)
    requires Stands(s, id, Update(key, f), Getting(attempt), Before(st, w, attempt), FreshIn(w, n, 2 * attempt))
    ensures Stands(Run(s, Reading(st, w, id, n, attempt) + [Move(id), Move(id)]), id, Update(key, f),
                   Tried(attempt + 1), Before(st, w, attempt + 1), FreshIn(w, n, 2 * attempt + 2))
  {
    var reading := Reading(st, w, id, n, attempt);
    Reads(s, id, key, f, st, w, attempt, n);
    SwapIsLost(Run(s, reading), id, key, f, st, w, attempt, FreshIn(w, n, 2 * attempt + 2));
    RunsTwo(Run(s, reading), Move(id), Move(id));
    RunsOn(s, reading, [Move(id), Move(id)]);
  }

  /** A state in which a client may begin a call: `id` is free, and so is everything from `n` on. */
  ghost predicate MayBegin(s: Sys, id: nat, n: nat) {
    WellFormed(s.store) && id !in s.calls && Below(s, n) && id < n
  }

  lemma {:induction false} Starts(s: Sys, id: nat, program: Program, n: nat)
    requires MayBegin(s, id, n)
    ensures Stands(Run(s, [Start(id, program)]), id, program, Begin(program, |s.history|).pc, s.store, n)
  {
    RunsJust(s, Start(id, program));
  }

  /** The client stands after `k` lost rounds. */
  ghost predicate Lost(s: Sys, id: nat, key: Key, f: Callback, st: Store, w: StateClient.World, n: nat, k: nat) {
    Stands(s, id, Update(key, f), Tried(k), Before(st, w, k), FreshIn(w, n, 2 * k))
  }

  lemma {:induction false} LosesOneMore(s: Sys, front: seq<Label>, id: nat, key: Key, f: Callback, st: Store,
                                        w: StateClient.World, n: nat, attempt: nat)
    requires WellFormed(st) && attempt < MAX_ATTEMPTS && StateClient.LostRound(st, w, key, f, attempt)
    requires Lost(Run(s, front), id, key, f, st, w, n, attempt)
    ensures Lost(Run(s, front + (Reading(st, w, id, n, attempt) + [Move(id), Move(id)])), id, key, f, st, w, n,
                 attempt + 1)
  {
    LosesRound(Run(s, front), id, key, f, st, w, n, attempt);
    RunsOn(s, front, Reading(st, w, id, n, attempt) + [Move(id), Move(id)]);
    assert 2 * (attempt + 1) == 2 * attempt + 2;
  }

  lemma {:induction false} LostRoundsRun(s: Sys, id: nat, n: nat, key: Key, f: Callback, st: Store,
                                         w: StateClient.World, k: nat, start: Label)
    requires MayBegin(s, id, n) && st == s.store && k <= MAX_ATTEMPTS && StateClient.AllLost(st, w, key, f, k)
    requires start == Start(id, Update(key, f))
    ensures Lost(Run(s, LostLabels(st, w, start, id, n, k)), id, key, f, st, w, n, k)
  {
    if k == 0 {
      Starts(s, id, Update(key, f), n);
    } else {
      var attempt: nat := k - 1;
      LostRoundsRun(s, id, n, key, f, st, w, attempt, start);
      LosesOneMore(s, LostLabels(st, w, start, id, n, attempt), id, key, f, st, w, n, attempt);
    }
  }

  // ---- The last round ----

  ghost predicate Matches(r: StateClient.UpdateResult, pc: Pc) {
    pc.Done? &&
    match r
    case Ok(value) => pc.outcome.Wrote? && pc.outcome.value == value
    case Cancelled => pc.outcome == Failed(Failure.Cancelled)
    case Unheard => pc.outcome == Failed(NoReply) || pc.outcome.Unheard?
    case CallbackError => pc.outcome == Failed(Failure.CallbackError)
    case Contention => pc.outcome == Failed(Failure.Contention)
  }

  /** The call has ended with this result and left this store. */
  ghost predicate Ended(s: Sys, id: nat, key: Key, f: Callback, r: StateClient.UpdateResult, end: Store) {
    id in s.calls && s.calls[id].program == Update(key, f) && Matches(r, s.calls[id].pc) && s.store == end
  }

  /** The client's own last steps: at most two of them, all its own. */
  ghost predicate OwnSteps(own: seq<Label>, id: nat) {
    1 <= |own| <= 2 && forall i :: 0 <= i < |own| ==> own[i].id == id
  }

  /** The last round: the rivals, the Get if its reply was heard, the rivals again, and the last steps. */
  ghost function LastLabels(st: Store, w: StateClient.World, id: nat, n: nat, attempt: nat, read: bool,
                            own: seq<Label>): seq<Label>
  {
    (if read then Reading(st, w, id, n, attempt) else FirstGap(st, w, n, attempt)) + own
  }

  lemma ActsAtGet(s: Sys, id: nat, key: Key, f: Callback, attempt: nat, n: nat, l: Label, r: StateClient.UpdateResult)
    requires Stands(s, id, Update(key, f), Getting(attempt), s.store, n)
    requires r.Cancelled? || r.Unheard? || (r.CallbackError? && f(ReadValue(s.store, key)).None?)
    requires l == if r.Cancelled? then Cancel(id) else if r.Unheard? then Lose(id) else Move(id)
    ensures Ended(Next(s, l), id, key, f, r, s.store)
  {
  }

  /** A round that ends before its Get was heard, or with the callback. */
  lemma EndsAtGet(s: Sys, id: nat, key: Key, f: Callback, st: Store, w: StateClient.World, attempt: nat, n: nat,
                  r: StateClient.UpdateResult)
    returns (own: seq<Label>)
    requires Stands(s, id, Update(key, f), Getting(attempt), Before(st, w, attempt), FreshIn(w, n, 2 * attempt))
    requires r.Cancelled? || r.Unheard? || r.CallbackError?
    requires r.CallbackError? ==> f(ReadValue(StateClient.AtGet(st, w, attempt), key)).None?
    ensures OwnSteps(own, id)
    ensures Ended(Run(s, LastLabels(st, w, id, n, attempt, false, own)), id, key, f, r,
                  StateClient.AtGet(st, w, attempt))
  {
    var l := if r.Cancelled? then Cancel(id) else if r.Unheard? then Lose(id) else Move(id);
    var gap := FirstGap(st, w, n, attempt);
    WaitsFirst(s, id, Update(key, f), Getting(attempt), st, w, n, attempt);
    ActsAtGet(Run(s, gap), id, key, f, attempt, FreshIn(w, n, 2 * attempt + 1), l, r);
    RunsOne(s, gap, l);
    own := [l];
  }

  /** What the last steps do once the call has read: the swap is cancelled, or lost and the back-off
      cancelled. */
  lemma EndsCancelled(s: Sys, id: nat, key: Key, f: Callback, st: Store, w: StateClient.World, attempt: nat, n: nat,
                      late: bool)
    returns (own: seq<Label>)
    requires WellFormed(st) && attempt < MAX_ATTEMPTS && HasRead(s, id, key, f, st, w, attempt, n)
    requires late ==> StateClient.Missed(st, w, key, f, attempt)
    ensures OwnSteps(own, id) && Ended(Run(s, own), id, key, f, StateClient.Cancelled, s.store)
  {
    if late {
      SwapIsLost(s, id, key, f, st, w, attempt, n);
      RunsTwo(s, Move(id), Cancel(id));
      own := [Move(id), Cancel(id)];
    } else {
      RunsJust(s, Cancel(id));
      own := [Cancel(id)];
    }
  }

  /** Or the swap goes through or not, and its reply is heard or not. */
  lemma EndsSwapping(s: Sys, id: nat, key: Key, f: Callback, st: Store, w: StateClient.World, attempt: nat, n: nat,
                     r: StateClient.UpdateResult, end: Store, value: Value)
    returns (own: seq<Label>)
    requires WellFormed(st) && attempt < MAX_ATTEMPTS && HasRead(s, id, key, f, st, w, attempt, n)
    requires r == StateClient.Ok(value) || r.Unheard?
    requires
      || StateClient.Swapped(st, w, key, f, attempt, value, end)
      || (r.Unheard? && StateClient.Missed(st, w, key, f, attempt) && end == s.store)
    ensures OwnSteps(own, id) && Ended(Run(s, own), id, key, f, r, end)
  {
    var l := if r.Ok? then Move(id) else Lose(id);
    own := [l];
    RunsJust(s, l);
    if StateClient.Swapped(st, w, key, f, attempt, value, end) {
      SwapGoesThrough(s, id, key, f, st, w, attempt, n, value, end);
    } else {
      SwapIsLost(s, id, key, f, st, w, attempt, n);
    }
  }

  lemma EndsHere(s: Sys, id: nat, key: Key, f: Callback, st: Store, w: StateClient.World, attempt: nat, n: nat,
                 r: StateClient.UpdateResult, end: Store)
    returns (own: seq<Label>)
    requires WellFormed(st) && attempt < MAX_ATTEMPTS && HasRead(s, id, key, f, st, w, attempt, n)
    requires StateClient.RoundResult(st, w, key, f, attempt, r, end) && !r.Contention? && !r.CallbackError?
    requires !AtItsGet(st, w, attempt, r, end)
    ensures OwnSteps(own, id) && Ended(Run(s, own), id, key, f, r, end)
  {
    if r.Cancelled? {
      own := EndsCancelled(s, id, key, f, st, w, attempt, n, !w.cancelled(3 * attempt + 1));
    } else {
      var later := f(ReadValue(StateClient.AtSwap(st, w, attempt), key));
      var value := if r.Ok? then r.value else if later.Some? then later.value else "";
      own := EndsSwapping(s, id, key, f, st, w, attempt, n, r, end, value);
    }
  }

  /** The round ended before its Get was heard. */
  ghost predicate AtItsGet(st: Store, w: StateClient.World, attempt: nat, r: StateClient.UpdateResult, end: Store) {
    && end == StateClient.AtGet(st, w, attempt)
    && ((r.Cancelled? && w.cancelled(3 * attempt)) || (r.Unheard? && w.lost(2 * attempt)))
  }

  /** A round that went beyond its Get had a value from its callback. */
  lemma {:induction false} RoundHasRead(st: Store, w: StateClient.World, key: Key, f: Callback, attempt: nat,
                                        r: StateClient.UpdateResult, end: Store)
    requires WellFormed(st) && StateClient.RoundResult(st, w, key, f, attempt, r, end)
    requires !r.Contention? && !r.CallbackError? && !AtItsGet(st, w, attempt, r, end)
    ensures f(ReadValue(StateClient.AtGet(st, w, attempt), key)).Some?
  {
    StateClient.AttemptsWellFormed(st, w, attempt);
    StateClient.SameVersionDecides(st, w, key, attempt);
  }

  lemma LastRoundRuns(s: Sys, id: nat, key: Key, f: Callback, st: Store, w: StateClient.World, attempt: nat, n: nat,
                      r: StateClient.UpdateResult, end: Store)
    returns (read: bool, own: seq<Label>)
    requires WellFormed(st) && attempt < MAX_ATTEMPTS && !r.Contention?
    requires Stands(s, id, Update(key, f), Getting(attempt), Before(st, w, attempt), FreshIn(w, n, 2 * attempt))
    requires StateClient.RoundResult(st, w, key, f, attempt, r, end)
    ensures OwnSteps(own, id) && Ended(Run(s, LastLabels(st, w, id, n, attempt, read, own)), id, key, f, r, end)
  {
    read := !(r.CallbackError? || AtItsGet(st, w, attempt, r, end));
    if !read {
      own := EndsAtGet(s, id, key, f, st, w, attempt, n, r);
    } else {
      RoundHasRead(st, w, key, f, attempt, r, end);
      var reading := Reading(st, w, id, n, attempt);
      Reads(s, id, key, f, st, w, attempt, n);
      own := EndsHere(Run(s, reading), id, key, f, st, w, attempt, FreshIn(w, n, 2 * attempt + 2), r, end);
      RunsOn(s, reading, own);
    }
  }

  lemma EndsAfter(s: Sys, lost: seq<Label>, id: nat, key: Key, f: Callback, st: Store, w: StateClient.World,
                  attempt: nat, n: nat, r: StateClient.UpdateResult, end: Store)
    returns (read: bool, own: seq<Label>)
    requires WellFormed(st) && attempt < MAX_ATTEMPTS && !r.Contention?
    requires Lost(Run(s, lost), id, key, f, st, w, n, attempt)
    requires StateClient.RoundResult(st, w, key, f, attempt, r, end)
    ensures OwnSteps(own, id)
    ensures Ended(Run(s, lost + LastLabels(st, w, id, n, attempt, read, own)), id, key, f, r, end)
  {
    read, own := LastRoundRuns(Run(s, lost), id, key, f, st, w, attempt, n, r, end);
    RunsOn(s, lost, LastLabels(st, w, id, n, attempt, read, own));
  }

  // ---- Whole calls ----

  /** All steps of a call of Update and its rivals: the lost rounds, then the last one, if not all were lost. */
  ghost function UpdateLabels(st: Store, w: StateClient.World, key: Key, f: Callback, id: nat, n: nat, attempt: nat,
                              r: StateClient.UpdateResult, read: bool, own: seq<Label>): seq<Label>
  {
    var start := Start(id, Update(key, f));
    if r.Contention? then LostLabels(st, w, start, id, n, attempt + 1)
    else LostLabels(st, w, start, id, n, attempt) + LastLabels(st, w, id, n, attempt, read, own)
  }

  /** Whatever the retry loop came to, the protocol comes to by the same steps in the same order: the
      client's own, and between them a call of its own for every host call of a rival that had an effect. */
  lemma UpdateRuns(s: Sys, id: nat, n: nat, key: Key, f: Callback, w: StateClient.World, attempt: nat,
                   r: StateClient.UpdateResult, end: Store)
    returns (read: bool, own: seq<Label>)
    requires MayBegin(s, id, n)
    requires attempt < 16 && (r.Contention? ==> attempt == 15)
    requires StateClient.RoundResult(s.store, w, key, f, attempt, r, end)
    requires StateClient.AllLost(s.store, w, key, f, if r.Contention? then attempt + 1 else attempt)
    ensures !r.Contention? ==> OwnSteps(own, id)
    ensures Ended(Run(s, UpdateLabels(s.store, w, key, f, id, n, attempt, r, read, own)), id, key, f, r, end)
  {
    var start := Start(id, Update(key, f));
    if r.Contention? {
      read, own := false, [];
      LostRoundsRun(s, id, n, key, f, s.store, w, attempt + 1, start);
    } else {
      LostRoundsRun(s, id, n, key, f, s.store, w, attempt, start);
      var lost := LostLabels(s.store, w, start, id, n, attempt);
      read, own := EndsAfter(s, lost, id, key, f, s.store, w, attempt, n, r, end);
    }
  }

  /** The real retry loop against the real host is a run of the protocol, from any of its states. */
  method RunUpdate(host: State, key: Key, f: Callback, w: StateClient.World, ghost s: Sys, ghost id: nat, ghost n: nat)
    returns (r: StateClient.UpdateResult, ghost attempt: nat, ghost read: bool, ghost own: seq<Label>)
    requires host.Valid() && host.Abs() == s.store && MayBegin(s, id, n)
    modifies host
    ensures host.Valid() && (!r.Contention? ==> OwnSteps(own, id))
    ensures Ended(Run(s, UpdateLabels(s.store, w, key, f, id, n, attempt, r, read, own)), id, key, f, r, host.Abs())
  {
    r, attempt := StateClient.Update(host, key, f, w);
    read, own := UpdateRuns(s, id, n, key, f, w, attempt, r, host.Abs());
  }

  // ---- Delete ----

  /** A Delete that has ended well or not, and left this store. */
  ghost predicate DeleteEnded(s: Sys, id: nat, key: Key, ok: bool, end: Store) {
    && id in s.calls && s.calls[id].program == DeleteSeen(key) && s.calls[id].pc.Done? && s.store == end
    && (ok <==> s.calls[id].pc.outcome.Gone? || s.calls[id].pc.outcome.NothingToDelete?)
  }

  lemma GetSees(s: Sys, id: nat, key: Key, n: nat) returns (next: Pc)
    requires Stands(s, id, DeleteSeen(key), Looking, s.store, n) && key in s.store.cells
    ensures next.Deleting? && next.version == VersionOf(s.store, key)
    ensures Stands(Next(s, Move(id)), id, DeleteSeen(key), next, s.store, n)
  {
    next := Next(s, Move(id)).calls[id].pc;
  }

  /** The versioned removal, by its version, is the removal of the instance that was seen. */
  lemma {:induction false} RemovalIsDropping(st: Store, w: StateClient.World, key: Key)
    requires WellFormed(st)
    ensures Apply(StateClient.AtSwap(st, w, 0), StateStore.Delete(key, VersionOf(StateClient.AtGet(st, w, 0), key))).0
         == StateClient.Dropping(st, w, key)
  {
    StateClient.AttemptsWellFormed(st, w, 0);
    StateClient.SameVersionDecides(st, w, key, 0);
  }

  /** The Delete has seen an instance at its Get, and the rivals have acted since. */
  ghost predicate HasSeen(s: Sys, id: nat, key: Key, st: Store, w: StateClient.World, attempt: nat, n: nat) {
    && id in s.calls && s.calls[id].pc.Deleting?
    && s.calls[id].pc.version == VersionOf(StateClient.AtGet(st, w, attempt), key)
    && Stands(s, id, DeleteSeen(key), s.calls[id].pc, StateClient.AtSwap(st, w, attempt), n)
  }

  lemma {:induction false} Sees(s: Sys, id: nat, n: nat, key: Key, st: Store, w: StateClient.World, attempt: nat)
    requires Stands(s, id, DeleteSeen(key), Looking, Before(st, w, attempt), FreshIn(w, n, 2 * attempt))
    requires key in StateClient.AtGet(st, w, attempt).cells
    ensures HasSeen(Run(s, Reading(st, w, id, n, attempt)), id, key, st, w, attempt, FreshIn(w, n, 2 * attempt + 2))
  {
    WaitsFirst(s, id, DeleteSeen(key), Looking, st, w, n, attempt);
    var next := GetSees(Run(s, FirstGap(st, w, n, attempt)), id, key, FreshIn(w, n, 2 * attempt + 1));
    ReadsOn(s, id, DeleteSeen(key), next, st, w, n, attempt);
  }

  /** The Get finds the key, and then the removal is done, or done unheard, or cancelled. */
  lemma DeleteEndsSeen(s: Sys, id: nat, n: nat, key: Key, st: Store, w: StateClient.World, ok: bool, end: Store)
    returns (own: seq<Label>)
    requires WellFormed(st) && Stands(s, id, DeleteSeen(key), Looking, Before(st, w, 0), FreshIn(w, n, 0))
    requires key in StateClient.AtGet(st, w, 0).cells
    requires end == StateClient.Dropping(st, w, key) || (!ok && end == StateClient.AtSwap(st, w, 0))
    ensures OwnSteps(own, id) && DeleteEnded(Run(s, LastLabels(st, w, id, n, 0, true, own)), id, key, ok, end)
  {
    var reading := Reading(st, w, id, n, 0);
    Sees(s, id, n, key, st, w, 0);
    var l := if ok then Move(id) else if end == StateClient.Dropping(st, w, key) then Lose(id) else Cancel(id);
    ActsAtDelete(Run(s, reading), id, key, st, w, FreshIn(w, n, 2), l, ok, end);
    RunsOne(s, reading, l);
    own := [l];
  }

  lemma {:induction false} ActsAtDelete(s: Sys, id: nat, key: Key, st: Store, w: StateClient.World, n: nat, l: Label,
                                        ok: bool, end: Store)
    requires WellFormed(st) && HasSeen(s, id, key, st, w, 0, n)
    requires end == StateClient.Dropping(st, w, key) || (!ok && end == StateClient.AtSwap(st, w, 0))
    requires l == if ok then Move(id) else if end == StateClient.Dropping(st, w, key) then Lose(id) else Cancel(id)
    ensures DeleteEnded(Next(s, l), id, key, ok, end)
  {
    RemovalIsDropping(st, w, key);
  }

  lemma ActsAtLook(s: Sys, id: nat, key: Key, n: nat, l: Label, ok: bool)
    requires Stands(s, id, DeleteSeen(key), Looking, s.store, n)
    requires if ok then l == Move(id) && key !in s.store.cells else l == Cancel(id) || l == Lose(id)
    ensures DeleteEnded(Next(s, l), id, key, ok, s.store)
  {
  }

  lemma DeleteEndsAtGet(s: Sys, id: nat, n: nat, key: Key, st: Store, w: StateClient.World, ok: bool)
    returns (own: seq<Label>)
    requires Stands(s, id, DeleteSeen(key), Looking, Before(st, w, 0), FreshIn(w, n, 0))
    requires ok ==> key !in StateClient.AtGet(st, w, 0).cells
    ensures OwnSteps(own, id)
    ensures DeleteEnded(Run(s, LastLabels(st, w, id, n, 0, false, own)), id, key, ok, StateClient.AtGet(st, w, 0))
  {
    var l := if ok then Move(id) else if w.cancelled(0) then Cancel(id) else Lose(id);
    var gap := FirstGap(st, w, n, 0);
    WaitsFirst(s, id, DeleteSeen(key), Looking, st, w, n, 0);
    ActsAtLook(Run(s, gap), id, key, FreshIn(w, n, 1), l, ok);
    RunsOne(s, gap, l);
    own := [l];
  }

  ghost function DeleteLabels(st: Store, w: StateClient.World, key: Key, id: nat, n: nat, read: bool, own: seq<Label>)
    : seq<Label>
  {
    [Start(id, DeleteSeen(key))] + LastLabels(st, w, id, n, 0, read, own)
  }

  lemma DeleteRuns(s: Sys, id: nat, n: nat, key: Key, w: StateClient.World, ok: bool, end: Store)
    returns (read: bool, own: seq<Label>)
    requires MayBegin(s, id, n) && StateClient.DeleteResult(s.store, w, key, ok, end)
    ensures OwnSteps(own, id)
    ensures DeleteEnded(Run(s, DeleteLabels(s.store, w, key, id, n, read, own)), id, key, ok, end)
  {
    var start := [Start(id, DeleteSeen(key))];
    Starts(s, id, DeleteSeen(key), n);
    var atGet := StateClient.AtGet(s.store, w, 0);
    read := !(end == atGet && (if ok then key !in atGet.cells else w.cancelled(0) || w.lost(0)));
    if read {
      own := DeleteEndsSeen(Run(s, start), id, n, key, s.store, w, ok, end);
    } else {
      own := DeleteEndsAtGet(Run(s, start), id, n, key, s.store, w, ok);
    }
    RunsOn(s, start, LastLabels(s.store, w, id, n, 0, read, own));
  }

  /** The real Delete against the real host is a run of the protocol, too. */
  method RunDelete(host: State, key: Key, w: StateClient.World, ghost s: Sys, ghost id: nat, ghost n: nat)
    returns (ok: bool, ghost read: bool, ghost own: seq<Label>)
    requires host.Valid() && host.Abs() == s.store && MayBegin(s, id, n)
    modifies host
    ensures host.Valid() && OwnSteps(own, id)
    ensures DeleteEnded(Run(s, DeleteLabels(s.store, w, key, id, n, read, own)), id, key, ok, host.Abs())
  {
    ok := StateClient.Delete(host, key, w);
    read, own := DeleteRuns(s, id, n, key, w, ok, host.Abs());
  }
}
