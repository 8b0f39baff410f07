/**
 * Any number of clients against one host, every host call an atomic step and any client allowed
 * to move next. Each client call (Update or Store, Take, Delete) is a small state machine; the
 * history records when each took effect. The calls are unbounded in number and a run is any
 * sequence of labels, so what holds here holds of every interleaving.
 */
module StateProtocol {
  import opened Bytes
  import opened StateStore
  import opened StateHistory

  const MAX_ATTEMPTS := 16

  datatype Program = Update(key: Key, f: Callback) | TakeOne(key: Key) | DeleteSeen(key: Key)

  datatype Failure = Cancelled | CallbackError | Contention | NoReply

  /** What a call came to. An unheard call took effect, but the host's reply was lost and the client
      reports an error; a failed call took no effect. */
  datatype Outcome =
    | Wrote(at: nat, value: Value)
    | Took(at: nat, found: bool, value: Value, version: nat)
    | Gone(at: nat, seenAt: nat)
    | NothingToDelete
    | Unheard(at: nat)
    | Failed(failure: Failure)

  /** Where a call stands. `seenAt` is the length of the history at its Get. */
  datatype Pc =
    | Getting(attempt: nat)
    | Swapping(attempt: nat, seenAt: nat, version: nat, value: Value)
    | BackingOff(attempt: nat)
    | Taking
    | Looking
    | Deleting(seenAt: nat, version: nat)
    | Done(outcome: Outcome)

  /** A swap that failed: where the history stood at its Get and at the swap, and the event to blame. */
  datatype LostSwap = LostSwap(got: nat, blamed: nat, lost: nat)

  /** `since` is the history's length when the call began. */
  datatype Call = Call(program: Program, pc: Pc, since: nat, conflicts: seq<LostSwap>)

  datatype Sys = Sys(store: Store, calls: map<nat, Call>, history: seq<Event>)

  /** A call moves and hears the reply, moves and does not, or is cancelled. */
  datatype Label = Start(id: nat, program: Program) | Move(id: nat) | Lose(id: nat) | Cancel(id: nat)

  const INIT := Sys(EMPTY, map[], [])

  /** Storing a value is an update that ignores what it reads. */
  ghost function StoreProgram(key: Key, value: Value): Program {
    Update(key, _ => Some(value))
  }

  ghost function Begin(program: Program, since: nat): Call {
    Call(program, match program case Update(_, _) => Getting(0) case TakeOne(_) => Taking case DeleteSeen(_) => Looking,
         since, [])
  }

  ghost function SetPc(s: Sys, id: nat, pc: Pc): Sys
    requires id in s.calls
  {
    s.(calls := s.calls[id := s.calls[id].(pc := pc)])
  }

  /** The call takes effect: the host moves to `store` and the event goes on record. */
  ghost function Commit(s: Sys, id: nat, store: Store, e: Event, outcome: Outcome): Sys
    requires id in s.calls
  {
    Sys(store, s.calls[id := s.calls[id].(pc := Done(outcome))], s.history + [e])
  }

  ghost function MoveGet(s: Sys, id: nat): Sys
    requires id in s.calls && s.calls[id].program.Update? && s.calls[id].pc.Getting?
  {
    var c := s.calls[id];
    var reply := Apply(s.store, Get(c.program.key)).1;
    var out := c.program.f(reply.value);
    if out.None? then SetPc(s, id, Done(Failed(CallbackError)))
    else SetPc(s, id, Swapping(c.pc.attempt, |s.history|, reply.version, out.value))
  }

  ghost function MoveSwap(s: Sys, id: nat, heard: bool): Sys
    requires id in s.calls && s.calls[id].program.Update? && s.calls[id].pc.Swapping?
  {
    var c := s.calls[id];
    var key := c.program.key;
    var (store, reply) := Apply(s.store, Cas(key, c.pc.version, c.pc.value));
    if reply.swapped then
      Commit(s, id, store, Updated(id, key, c.program.f),
             if heard then Wrote(|s.history|, c.pc.value) else Unheard(|s.history|))
    else if heard then
      s.(calls := s.calls[id := c.(pc := BackingOff(c.pc.attempt), conflicts := c.conflicts + [Conflict(s, id)])])
    else SetPc(s, id, Done(Failed(NoReply)))
  }

  ghost function Conflict(s: Sys, id: nat): LostSwap
    requires id in s.calls && s.calls[id].pc.Swapping?
  {
    LostSwap(s.calls[id].pc.seenAt, NatOf(LastChange(s.history, s.calls[id].program.key)), |s.history|)
  }

  function NatOf(i: int): nat {
    if i < 0 then 0 else i
  }

  ghost function MoveTake(s: Sys, id: nat, heard: bool): Sys
    requires id in s.calls && s.calls[id].program.TakeOne?
  {
    var key := s.calls[id].program.key;
    var (store, reply) := Apply(s.store, Take(key));
    Commit(s, id, store, Taken(id, key),
           if heard then Took(|s.history|, reply.found, reply.value, reply.version) else Unheard(|s.history|))
  }

  ghost function MoveLook(s: Sys, id: nat): Sys
    requires id in s.calls
  {
    var reply := Apply(s.store, Get(s.calls[id].program.key)).1;
    SetPc(s, id, if reply.found then Deleting(|s.history|, reply.version) else Done(NothingToDelete))
  }

  ghost function MoveDelete(s: Sys, id: nat, heard: bool): Sys
    requires id in s.calls && s.calls[id].pc.Deleting?
  {
    var c := s.calls[id];
    var key := c.program.key;
    Commit(s, id, Apply(s.store, Delete(key, c.pc.version)).0, Dropped(id, key, c.pc.version),
           if heard then Gone(|s.history|, c.pc.seenAt) else Unheard(|s.history|))
  }

  ghost predicate Fits(program: Program, pc: Pc) {
    match pc
    case Getting(_) => program.Update?
    case Swapping(_, _, _, _) => program.Update?
    case BackingOff(_) => program.Update?
    case Taking => program.TakeOne?
    case Looking => program.DeleteSeen?
    case Deleting(_, _) => program.DeleteSeen?
    case Done(Wrote(_, _)) => program.Update?
    case Done(Took(_, _, _, _)) => program.TakeOne?
    case Done(Gone(_, _)) => program.DeleteSeen?
    case Done(NothingToDelete) => program.DeleteSeen?
    case Done(Unheard(_)) => true
    case Done(Failed(_)) => true
  }

  /** One step; a label that is not enabled leaves everything as it was. */
  ghost function Next(s: Sys, l: Label): Sys {
    match l
    case Start(id, program) =>
      if id in s.calls then s else s.(calls := s.calls[id := Begin(program, |s.history|)])
    case Cancel(id) =>
      if id !in s.calls || s.calls[id].pc.Done? then s else SetPc(s, id, Done(Failed(Cancelled)))
    case Move(id) => if id !in s.calls || !Fits(s.calls[id].program, s.calls[id].pc) then s else Moved(s, id)
    case Lose(id) => if id !in s.calls || !Fits(s.calls[id].program, s.calls[id].pc) then s else MovedUnheard(s, id)
  }

  ghost function Moved(s: Sys, id: nat): Sys
    requires id in s.calls && Fits(s.calls[id].program, s.calls[id].pc)
  {
    match s.calls[id].pc
    case Getting(_) => MoveGet(s, id)
    case Swapping(_, _, _, _) => MoveSwap(s, id, true)
    case BackingOff(attempt) =>
      SetPc(s, id, if attempt + 1 < MAX_ATTEMPTS then Getting(attempt + 1) else Done(Failed(Contention)))
    case Taking => MoveTake(s, id, true)
    case Looking => MoveLook(s, id)
    case Deleting(_, _) => MoveDelete(s, id, true)
    case Done(_) => s
  }

  /** The host does its part, and the client only learns that something went wrong. */
  ghost function MovedUnheard(s: Sys, id: nat): Sys
    requires id in s.calls && Fits(s.calls[id].program, s.calls[id].pc)
  {
    match s.calls[id].pc
    case Getting(_) => SetPc(s, id, Done(Failed(NoReply)))
    case Swapping(_, _, _, _) => MoveSwap(s, id, false)
    case BackingOff(_) => s
    case Taking => MoveTake(s, id, false)
    case Looking => SetPc(s, id, Done(Failed(NoReply)))
    case Deleting(_, _) => MoveDelete(s, id, false)
    case Done(_) => s
  }

  ghost function Run(s: Sys, labels: seq<Label>): Sys {
    if labels == [] then s else Next(Run(s, labels[..|labels| - 1]), labels[|labels| - 1])
  }

  lemma {:induction false} RunsOn(s: Sys, labels: seq<Label>, more: seq<Label>)
    ensures Run(s, labels + more) == Run(Run(s, labels), more)
    decreases |more|
  {
    if more == [] {
      assert labels + more == labels;
    } else {
      RunsOn(s, labels, more[..|more| - 1]);
      assert (labels + more)[..|labels + more| - 1] == labels + more[..|more| - 1];
    }
  }

  // ---- The invariant ----

  ghost predicate Silent(h: seq<Event>, id: nat) {
    forall i :: 0 <= i < |h| ==> h[i].call != id
  }

  /** Between this attempt's Get and its swap another call changed the key. */
  ghost predicate Earned(h: seq<Event>, id: nat, key: Key, since: nat, x: LostSwap) {
    && since <= x.got <= x.blamed < x.lost <= |h|
    && h[x.blamed].call != id && Changes(h, x.blamed, key)
  }

  /** One earned conflict after the other. */
  ghost predicate Blames(h: seq<Event>, id: nat, key: Key, since: nat, conflicts: seq<LostSwap>) {
    && (forall i, j :: 0 <= i < j < |conflicts| ==> conflicts[i].lost <= conflicts[j].got)
    && (forall i :: 0 <= i < |conflicts| ==> Earned(h, id, key, since, conflicts[i]))
  }

  /** The event that a call of this program may have caused at this place. */
  ghost predicate Causes(h: seq<Event>, at: nat, id: nat, program: Program)
    requires at < |h|
  {
    match program
    case Update(key, f) => h[at] == Updated(id, key, f) && f(ReadValue(Replay(h[..at]), key)).Some?
    case TakeOne(key) => h[at] == Taken(id, key)
    case DeleteSeen(key) => h[at].Dropped? && h[at].call == id && h[at].key == key
  }

  /** What the call committed is what its event does where it stands in the history. */
  ghost predicate Committed(h: seq<Event>, id: nat, c: Call)
    requires c.pc.Done?
  {
    var key := c.program.key;
    match c.pc.outcome
    case Wrote(at, value) =>
      && c.program.Update? && c.since <= at < |h|
      && h[at] == Updated(id, key, c.program.f)
      && c.program.f(ReadValue(Replay(h[..at]), key)) == Some(value)
    case Took(at, found, value, version) =>
      && c.program.TakeOne? && c.since <= at < |h|
      && h[at] == Taken(id, key)
      && Look(Replay(h[..at]), key) == Instance(found, value, version)
    case Gone(at, seenAt) =>
      && c.program.DeleteSeen? && c.since <= seenAt <= at < |h|
      && key in Replay(h[..seenAt]).cells
      && h[at] == Dropped(id, key, VersionOf(Replay(h[..seenAt]), key))
    case NothingToDelete => c.program.DeleteSeen? && Silent(h, id)
    case Unheard(at) => c.since <= at < |h| && Causes(h, at, id, c.program)
    case Failed(failure) => Silent(h, id) && (failure == Contention ==> |c.conflicts| == MAX_ATTEMPTS)
  }

  ghost predicate CallOk(h: seq<Event>, id: nat, c: Call) {
    var key := c.program.key;
    && c.since <= |h|
    && Fits(c.program, c.pc)
    && Blames(h, id, key, c.since, c.conflicts)
    && (!c.pc.Done? ==> Silent(h, id))
    && match c.pc
       case Getting(attempt) => attempt < MAX_ATTEMPTS && |c.conflicts| == attempt
       case Swapping(attempt, seenAt, version, value) =>
         && attempt < MAX_ATTEMPTS && |c.conflicts| == attempt
         && c.since <= seenAt <= |h|
         && (forall i :: 0 <= i < |c.conflicts| ==> c.conflicts[i].lost <= seenAt)
         && version == VersionOf(Replay(h[..seenAt]), key)
         && c.program.f(ReadValue(Replay(h[..seenAt]), key)) == Some(value)
       case BackingOff(attempt) => attempt < MAX_ATTEMPTS && |c.conflicts| == attempt + 1
       case Taking => true
       case Looking => true
       case Deleting(seenAt, version) =>
         && c.since <= seenAt <= |h|
         && key in Replay(h[..seenAt]).cells
         && version == VersionOf(Replay(h[..seenAt]), key)
       case Done(_) => Committed(h, id, c)
  }

  ghost predicate EventOk(s: Sys, i: nat)
    requires i < |s.history|
  {
    var id := s.history[i].call;
    && id in s.calls
    && match s.calls[id].pc
       case Done(Wrote(at, _)) => at == i
       case Done(Took(at, _, _, _)) => at == i
       case Done(Gone(at, _)) => at == i
       case Done(Unheard(at)) => at == i
       case _ => false
  }

  ghost predicate Inv(s: Sys) {
    && s.store == Replay(s.history)
    && (forall id :: id in s.calls ==> CallOk(s.history, id, s.calls[id]))
    && (forall i :: 0 <= i < |s.history| ==> EventOk(s, i))
  }

  // ---- Every step keeps it ----

  /** Another call's commit disturbs nothing that is already known about this call. */
  lemma CallOkAppend(h: seq<Event>, e: Event, id: nat, c: Call)
    requires CallOk(h, id, c) && e.call != id
    ensures CallOk(h + [e], id, c)
  {
    PrefixesAppend(h, e);
    BlamesAppend(h, e, id, c.program.key, c.since, c.conflicts);
  }

  lemma BlamesAppend(h: seq<Event>, e: Event, id: nat, key: Key, since: nat, conflicts: seq<LostSwap>)
    requires Blames(h, id, key, since, conflicts)
    ensures Blames(h + [e], id, key, since, conflicts)
  {
    PrefixesAppend(h, e);
    forall i | 0 <= i < |conflicts|
      ensures Earned(h + [e], id, key, since, conflicts[i])
    {
      assert Earned(h, id, key, since, conflicts[i]);
    }
  }

  lemma PrefixesAppend(h: seq<Event>, e: Event)
    ensures forall k {:trigger (h + [e])[..k]} {:trigger h[..k]} :: 0 <= k <= |h| ==> (h + [e])[..k] == h[..k]
  {
  }

  lemma StepAlone(s: Sys, id: nat, c: Call)
    requires Inv(s) && CallOk(s.history, id, c)
    requires id in s.calls ==> !s.calls[id].pc.Done?
    ensures Inv(s.(calls := s.calls[id := c]))
  {
    var t := s.(calls := s.calls[id := c]);
    forall i | 0 <= i < |s.history|
      ensures EventOk(t, i)
    {
      assert EventOk(s, i);
    }
  }

  lemma CommitKeepsInv(s: Sys, id: nat, e: Event, outcome: Outcome)
    requires Inv(s) && id in s.calls && !s.calls[id].pc.Done? && e.call == id
    requires outcome.Wrote? || outcome.Took? || outcome.Gone? || outcome.Unheard?
    requires outcome.at == |s.history|
    requires CallOk(s.history + [e], id, s.calls[id].(pc := Done(outcome)))
    ensures Inv(Commit(s, id, Effect(s.store, e), e, outcome))
  {
    var t := Commit(s, id, Effect(s.store, e), e, outcome);
    ReplayAppend(s.history, e);
    forall k | k in t.calls
      ensures CallOk(t.history, k, t.calls[k])
    {
      if k != id {
        CallOkAppend(s.history, e, k, s.calls[k]);
      }
    }
    forall i | 0 <= i < |t.history|
      ensures EventOk(t, i)
    {
      if i < |s.history| {
        assert EventOk(s, i);
      }
    }
  }

  /** A swap goes through exactly when nothing changed the key since the Get, or when the key was
      absent then and is absent again now: the recurring version "0" is harmless because an absent
      key always reads the same. */
  lemma SwapDecides(s: Sys, id: nat)
    requires Inv(s) && id in s.calls && s.calls[id].pc.Swapping?
    ensures var c := s.calls[id]; var key := c.program.key;
            var before := Replay(s.history[..c.pc.seenAt]);
            && (c.pc.version == VersionOf(s.store, key) <==>
                  LastChange(s.history, key) < c.pc.seenAt || (key !in before.cells && key !in s.store.cells))
            && (c.pc.version == VersionOf(s.store, key) ==> ReadValue(s.store, key) == ReadValue(before, key))
  {
    var c := s.calls[id];
    var h, key, seenAt := s.history, c.program.key, c.pc.seenAt;
    ReplayWellFormed(h);
    ReplayWellFormed(h[..seenAt]);
    if LastChange(h, key) < seenAt {
      UnchangedSince(h, key, seenAt);
    } else if c.pc.version != 0 && c.pc.version == VersionOf(s.store, key) {
      SameVersionMeansUntouched(h, key, seenAt);
    }
  }

  lemma MoveSwapKeepsInv(s: Sys, id: nat, heard: bool)
    requires Inv(s) && id in s.calls && s.calls[id].pc.Swapping?
    ensures Inv(MoveSwap(s, id, heard))
  {
    SwapDecides(s, id);
    if s.calls[id].pc.version == VersionOf(s.store, s.calls[id].program.key) {
      SwapSucceeds(s, id, heard);
    } else if heard {
      SwapFails(s, id);
    } else {
      StepAlone(s, id, s.calls[id].(pc := Done(Failed(NoReply))));
    }
  }

  lemma SwapSucceeds(s: Sys, id: nat, heard: bool)
    requires Inv(s) && id in s.calls && s.calls[id].pc.Swapping?
    requires s.calls[id].pc.version == VersionOf(s.store, s.calls[id].program.key)
    ensures Inv(MoveSwap(s, id, heard))
  {
    SwapDecides(s, id);
    var c := s.calls[id];
    var h := s.history;
    var e := Updated(id, c.program.key, c.program.f);
    var outcome := if heard then Wrote(|h|, c.pc.value) else Unheard(|h|);
    assert (h + [e])[..|h|] == h;
    CallOkCommit(h, e, id, c, outcome);
    CommitKeepsInv(s, id, e, outcome);
  }

  lemma SwapFails(s: Sys, id: nat)
    requires Inv(s) && id in s.calls && s.calls[id].pc.Swapping?
    requires s.calls[id].pc.version != VersionOf(s.store, s.calls[id].program.key)
    ensures Inv(MoveSwap(s, id, true))
  {
    SwapDecides(s, id);
    var c, x := s.calls[id], Conflict(s, id);
    assert s.history[x.blamed].call != id;
    BlameMore(s.history, id, c.program.key, c.since, c.conflicts, x);
    StepAlone(s, id, c.(pc := BackingOff(c.pc.attempt), conflicts := c.conflicts + [x]));
  }

  lemma BlameMore(h: seq<Event>, id: nat, key: Key, since: nat, conflicts: seq<LostSwap>, x: LostSwap)
    requires Blames(h, id, key, since, conflicts) && Earned(h, id, key, since, x)
    requires forall k :: 0 <= k < |conflicts| ==> conflicts[k].lost <= x.got
    ensures Blames(h, id, key, since, conflicts + [x])
  {
  }

  /** A call that commits only has to show that its outcome is right. */
  lemma CallOkCommit(h: seq<Event>, e: Event, id: nat, c: Call, outcome: Outcome)
    requires CallOk(h, id, c) && !c.pc.Done? && e.call == id
    requires Fits(c.program, Done(outcome))
    requires Committed(h + [e], id, c.(pc := Done(outcome)))
    ensures CallOk(h + [e], id, c.(pc := Done(outcome)))
  {
    PrefixesAppend(h, e);
    BlamesAppend(h, e, id, c.program.key, c.since, c.conflicts);
  }

  lemma MoveTakeKeepsInv(s: Sys, id: nat, heard: bool)
    requires Inv(s) && id in s.calls && s.calls[id].pc.Taking?
    ensures Inv(MoveTake(s, id, heard))
  {
    var c := s.calls[id];
    var h, key := s.history, c.program.key;
    var e := Taken(id, key);
    var outcome := if heard then Took(|h|, key in s.store.cells, ReadValue(s.store, key), VersionOf(s.store, key))
                   else Unheard(|h|);
    assert (h + [e])[..|h|] == h;
    CallOkCommit(h, e, id, c, outcome);
    CommitKeepsInv(s, id, e, outcome);
  }

  lemma MoveDeleteKeepsInv(s: Sys, id: nat, heard: bool)
    requires Inv(s) && id in s.calls && s.calls[id].pc.Deleting?
    ensures Inv(MoveDelete(s, id, heard))
  {
    var c := s.calls[id];
    var h, key := s.history, c.program.key;
    var e := Dropped(id, key, c.pc.version);
    var outcome := if heard then Gone(|h|, c.pc.seenAt) else Unheard(|h|);
    PrefixesAppend(h, e);
    assert (h + [e])[..c.pc.seenAt] == h[..c.pc.seenAt];
    CallOkCommit(h, e, id, c, outcome);
    CommitKeepsInv(s, id, e, outcome);
  }

  lemma NextKeepsInv(s: Sys, l: Label)
    requires Inv(s)
    ensures Inv(Next(s, l))
  {
    var h := s.history;
    assert h[..|h|] == h;
    match l {
      case Start(id, program) =>
        if id !in s.calls {
          forall i | 0 <= i < |h|
            ensures h[i].call != id
          {
            assert EventOk(s, i);
          }
          StepAlone(s, id, Begin(program, |h|));
        }
      case Cancel(id) =>
        if id in s.calls && !s.calls[id].pc.Done? {
          StepAlone(s, id, s.calls[id].(pc := Done(Failed(Cancelled))));
        }
      case Move(id) =>
        if id in s.calls {
          MoveKeepsInv(s, id);
        }
      case Lose(id) =>
        if id in s.calls {
          LoseKeepsInv(s, id);
        }
    }
  }

  lemma MoveKeepsInv(s: Sys, id: nat)
    requires Inv(s) && id in s.calls
    ensures Inv(Next(s, Move(id)))
  {
    var c, h := s.calls[id], s.history;
    assert h[..|h|] == h;
    assert CallOk(h, id, c);
    match c.pc {
      case Getting(_) => StepAlone(s, id, MoveGet(s, id).calls[id]);
      case Swapping(_, _, _, _) => MoveSwapKeepsInv(s, id, true);
      case BackingOff(_) => StepAlone(s, id, Moved(s, id).calls[id]);
      case Taking => MoveTakeKeepsInv(s, id, true);
      case Looking => StepAlone(s, id, MoveLook(s, id).calls[id]);
      case Deleting(_, _) => MoveDeleteKeepsInv(s, id, true);
      case Done(_) =>
    }
  }

  lemma LoseKeepsInv(s: Sys, id: nat)
    requires Inv(s) && id in s.calls
    ensures Inv(Next(s, Lose(id)))
  {
    var c := s.calls[id];
    assert CallOk(s.history, id, c);
    match c.pc {
      case Getting(_) => StepAlone(s, id, c.(pc := Done(Failed(NoReply))));
      case Swapping(_, _, _, _) => MoveSwapKeepsInv(s, id, false);
      case BackingOff(_) =>
      case Taking => MoveTakeKeepsInv(s, id, false);
      case Looking => StepAlone(s, id, c.(pc := Done(Failed(NoReply))));
      case Deleting(_, _) => MoveDeleteKeepsInv(s, id, false);
      case Done(_) =>
    }
  }

  lemma {:induction false} RunKeepsInv(labels: seq<Label>)
    ensures Inv(Run(INIT, labels))
    decreases |labels|
  {
    if labels != [] {
      RunKeepsInv(labels[..|labels| - 1]);
      NextKeepsInv(Run(INIT, labels[..|labels| - 1]), labels[|labels| - 1]);
    }
  }
}
