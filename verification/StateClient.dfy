/**
 * The client's own code: the retry loop of Update, and the two-call Delete, run against the real
 * host object while rivals slip arbitrary host calls into every gap between this client's calls.
 */
module StateClient {
  import opened Bytes
  import opened StateStore
  import opened StateHistory
  import StateProtocol

  /** An unheard call got an error in place of the host's reply. */
  datatype UpdateResult = Ok(value: Value) | Cancelled | Unheard | CallbackError | Contention

  /** `rivals(n)`: what others do before this client's n-th host call; `lost(n)`: whether the reply to
      that call is lost; `cancelled(n)`: whether the context is found cancelled at its n-th check (a Get,
      a swap, or a back-off, in that order). */
  datatype World = World(rivals: nat -> seq<Action>, lost: nat -> bool, cancelled: nat -> bool)

  ghost function After(st: Store, actions: seq<Action>): Store {
    if actions == [] then st
    else Apply(After(st, actions[..|actions| - 1]), actions[|actions| - 1]).0
  }

  /** The store at the Get, and just before the swap, of the given attempt, when all earlier
      swaps failed. */
  ghost function AtGet(st: Store, w: World, attempt: nat): Store
    decreases attempt, 0
  {
    After(if attempt == 0 then st else AtSwap(st, w, attempt - 1), w.rivals(2 * attempt))
  }

  ghost function AtSwap(st: Store, w: World, attempt: nat): Store
    decreases attempt, 1
  {
    After(AtGet(st, w, attempt), w.rivals(2 * attempt + 1))
  }

  /** The rivals replaced, removed or created the key's instance between this attempt's calls. */
  ghost predicate Disturbed(st: Store, w: World, key: Key, attempt: nat) {
    CellAt(AtGet(st, w, attempt), key) != CellAt(AtSwap(st, w, attempt), key)
  }

  lemma {:induction false} AfterKeepsWellFormed(st: Store, actions: seq<Action>)
    requires WellFormed(st)
    ensures WellFormed(After(st, actions)) && st.sequence <= After(st, actions).sequence
    decreases |actions|
  {
    if actions != [] {
      AfterKeepsWellFormed(st, actions[..|actions| - 1]);
      ApplyKeepsWellFormed(After(st, actions[..|actions| - 1]), actions[|actions| - 1]);
    }
  }

  /** Whatever rivals do, seeing the same version again means seeing the same value again. */
  lemma {:induction false} SameVersionSameCell(st: Store, actions: seq<Action>, key: Key)
    requires WellFormed(st) && VersionOf(After(st, actions), key) == VersionOf(st, key)
    ensures CellAt(After(st, actions), key) == CellAt(st, key)
    decreases |actions|
  {
    AfterKeepsWellFormed(st, actions);
    if actions != [] && VersionOf(st, key) != 0 {
      var front := actions[..|actions| - 1];
      AfterKeepsWellFormed(st, front);
      LiveVersionWasThereBefore(After(st, front), actions[|actions| - 1], key);
      SameVersionSameCell(st, front, key);
    }
  }

  lemma LiveVersionWasThereBefore(st: Store, a: Action, key: Key)
    requires var v := VersionOf(Apply(st, a).0, key); 0 < v <= st.sequence
    ensures CellAt(Apply(st, a).0, key) == CellAt(st, key)
  {
  }

  lemma {:induction false} AttemptsWellFormed(st: Store, w: World, attempt: nat)
    requires WellFormed(st)
    ensures WellFormed(AtGet(st, w, attempt)) && WellFormed(AtSwap(st, w, attempt))
    decreases attempt
  {
    if attempt > 0 {
      AttemptsWellFormed(st, w, attempt - 1);
      AfterKeepsWellFormed(AtSwap(st, w, attempt - 1), w.rivals(2 * attempt));
    } else {
      AfterKeepsWellFormed(st, w.rivals(0));
    }
    AfterKeepsWellFormed(AtGet(st, w, attempt), w.rivals(2 * attempt + 1));
  }

  method Interfere(host: State, actions: seq<Action>)
    requires host.Valid()
    modifies host
    ensures host.Valid() && host.Abs() == After(old(host.Abs()), actions)
  {
    for i := 0 to |actions|
      invariant host.Valid() && host.Abs() == After(old(host.Abs()), actions[..i])
    {
      assert actions[..i + 1][..i] == actions[..i];
      var _ := host.Invoke(false, actions[i]);
    }
    assert actions[..|actions|] == actions;
  }

  /** What one round of the retry loop came to. */
  datatype Round = Over(result: UpdateResult) | Lost

  /** Get and callback. */
  method Read(host: State, key: Key, f: Callback, w: World, ghost st: Store, attempt: nat)
    returns (r: Option<UpdateResult>, version: nat, value: Value)
    requires host.Valid() && WellFormed(st)
    requires host.Abs() == if attempt == 0 then st else AtSwap(st, w, attempt - 1)
    modifies host
    ensures host.Valid() && host.Abs() == AtGet(st, w, attempt)
    ensures r.None? ==> GetHeard(w, attempt) && version == VersionOf(AtGet(st, w, attempt), key)
    ensures r.None? ==> f(ReadValue(AtGet(st, w, attempt), key)) == Some(value)
    ensures r.Some? ==> RoundResult(st, w, key, f, attempt, r.value, host.Abs()) && !r.value.Ok? && !r.value.Contention?
  {
    Interfere(host, w.rivals(2 * attempt));
    version, value := 0, "";
    var seen := host.Invoke(w.cancelled(3 * attempt), Get(key));
    if w.cancelled(3 * attempt) {
      return Some(Cancelled), 0, "";
    }
    if w.lost(2 * attempt) {
      return Some(Unheard), 0, "";
    }
    var out := f(seen.value);
    if out.None? {
      return Some(CallbackError), 0, "";
    }
    return None, seen.version, out.value;
  }

  /** The swap, and the back-off after a lost one. */
  method Swap(host: State, key: Key, f: Callback, version: nat, value: Value, w: World, ghost st: Store, attempt: nat)
    returns (r: Round)
    requires host.Valid() && WellFormed(st) && host.Abs() == AtGet(st, w, attempt)
    requires version == VersionOf(AtGet(st, w, attempt), key) && f(ReadValue(AtGet(st, w, attempt), key)) == Some(value)
    requires GetHeard(w, attempt)
    modifies host
    ensures host.Valid()
    ensures r.Lost? ==> host.Abs() == AtSwap(st, w, attempt) && LostRound(st, w, key, f, attempt)
    ensures r.Over? ==> RoundResult(st, w, key, f, attempt, r.result, host.Abs()) && !r.result.Contention?
  {
    AttemptsWellFormed(st, w, attempt);
    Interfere(host, w.rivals(2 * attempt + 1));
    SameVersionDecides(st, w, key, attempt);
    var swap := host.Invoke(w.cancelled(3 * attempt + 1), Cas(key, version, value));
    if w.cancelled(3 * attempt + 1) {
      return Over(Cancelled);
    }
    if w.lost(2 * attempt + 1) {
      return Over(Unheard);
    }
    if swap.swapped {
      return Over(Ok(value));
    }
    if w.cancelled(3 * attempt + 2) {
      return Over(Cancelled);
    }
    return Lost;
  }

  /** An attempt whose version is still the same was not disturbed. */
  lemma {:induction false} SameVersionDecides(st: Store, w: World, key: Key, attempt: nat)
    requires WellFormed(AtGet(st, w, attempt))
    ensures var atGet, atSwap := AtGet(st, w, attempt), AtSwap(st, w, attempt);
            && (VersionOf(atSwap, key) == VersionOf(atGet, key) <==> !Disturbed(st, w, key, attempt))
            && (!Disturbed(st, w, key, attempt) ==> ReadValue(atSwap, key) == ReadValue(atGet, key))
  {
    if VersionOf(AtSwap(st, w, attempt), key) == VersionOf(AtGet(st, w, attempt), key) {
      SameVersionSameCell(AtGet(st, w, attempt), w.rivals(2 * attempt + 1), key);
    }
  }

  /** One round of the retry loop. */
  method Attempt(host: State, key: Key, f: Callback, w: World, ghost st: Store, attempt: nat) returns (r: Round)
    requires host.Valid() && WellFormed(st)
    requires host.Abs() == if attempt == 0 then st else AtSwap(st, w, attempt - 1)
    modifies host
    ensures host.Valid()
    ensures r.Lost? ==> host.Abs() == AtSwap(st, w, attempt) && LostRound(st, w, key, f, attempt)
    ensures r.Over? ==> RoundResult(st, w, key, f, attempt, r.result, host.Abs()) && !r.result.Contention?
  {
    var early, version, value := Read(host, key, f, w, st, attempt);
    if early.Some? {
      return Over(early.value);
    }
    r := Swap(host, key, f, version, value, w, st, attempt);
  }

  /** The Get of an attempt was neither cancelled nor its reply lost; nor was its swap. */
  ghost predicate GetHeard(w: World, attempt: nat) {
    !w.cancelled(3 * attempt) && !w.lost(2 * attempt)
  }

  ghost predicate SwapHeard(w: World, attempt: nat) {
    GetHeard(w, attempt) && !w.cancelled(3 * attempt + 1) && !w.lost(2 * attempt + 1)
  }

  /** An attempt came as far as its swap and was disturbed before it. */
  ghost predicate Missed(st: Store, w: World, key: Key, f: Callback, attempt: nat) {
    f(ReadValue(AtGet(st, w, attempt), key)).Some? && Disturbed(st, w, key, attempt)
  }

  /** The client heard that, and its back-off was not cancelled. */
  ghost predicate LostRound(st: Store, w: World, key: Key, f: Callback, attempt: nat) {
    Missed(st, w, key, f, attempt) && SwapHeard(w, attempt) && !w.cancelled(3 * attempt + 2)
  }

  /** A success replaced the value stored just before the swap, undisturbed since the Get, by the
      callback of that same value; an error left the store to the rivals, unless the reply to a swap
      was lost: then it may have replaced the value in the same way. */
  ghost predicate RoundResult(st: Store, w: World, key: Key, f: Callback, attempt: nat, r: UpdateResult, end: Store) {
    var atGet, atSwap := AtGet(st, w, attempt), AtSwap(st, w, attempt);
    match r
    case Ok(value) => SwapHeard(w, attempt) && Swapped(st, w, key, f, attempt, value, end)
    case CallbackError => GetHeard(w, attempt) && f(ReadValue(atGet, key)) == None && end == atGet
    case Cancelled =>
      || (w.cancelled(3 * attempt) && end == atGet)
      || (GetHeard(w, attempt) && w.cancelled(3 * attempt + 1) && f(ReadValue(atGet, key)).Some? && end == atSwap)
      || (SwapHeard(w, attempt) && w.cancelled(3 * attempt + 2) && Missed(st, w, key, f, attempt) && end == atSwap)
    case Unheard =>
      || (!w.cancelled(3 * attempt) && w.lost(2 * attempt) && end == atGet)
      || (SwapUnheard(w, attempt) && Missed(st, w, key, f, attempt) && end == atSwap)
      || (SwapUnheard(w, attempt) && f(ReadValue(atSwap, key)).Some?
          && Swapped(st, w, key, f, attempt, f(ReadValue(atSwap, key)).value, end))
    case Contention => end == atSwap
  }

  ghost predicate SwapUnheard(w: World, attempt: nat) {
    GetHeard(w, attempt) && !w.cancelled(3 * attempt + 1) && w.lost(2 * attempt + 1)
  }

  ghost predicate Swapped(st: Store, w: World, key: Key, f: Callback, attempt: nat, value: Value, end: Store) {
    var atSwap := AtSwap(st, w, attempt);
    !Disturbed(st, w, key, attempt) && f(ReadValue(atSwap, key)) == Some(value) && end == Put(atSwap, key, value)
  }

  /** The first `n` attempts were all lost. */
  ghost predicate AllLost(st: Store, w: World, key: Key, f: Callback, n: nat) {
    n > 0 ==> AllLost(st, w, key, f, n - 1) && LostRound(st, w, key, f, n - 1)
  }

  lemma {:induction false} EachLost(st: Store, w: World, key: Key, f: Callback, n: nat, a: nat)
    requires AllLost(st, w, key, f, n) && a < n
    ensures LostRound(st, w, key, f, a)
  {
    if a < n - 1 {
      EachLost(st, w, key, f, n - 1, a);
    }
  }

  /** The context is found alive at its first `checks` checks, and the first `calls` replies arrive. */
  ghost predicate Clear(w: World, checks: nat, calls: nat) {
    (forall i :: 0 <= i < checks ==> !w.cancelled(i)) && (forall i :: 0 <= i < calls ==> !w.lost(i))
  }

  /** Attempt `k` is the first undisturbed one, the callback accepts what it reads, and nothing is
      cancelled or lost up to its swap. */
  ghost predicate GoesThroughAt(st: Store, w: World, key: Key, f: Callback, k: nat) {
    && AllLost(st, w, key, f, k) && !Disturbed(st, w, key, k)
    && f(ReadValue(AtGet(st, w, k), key)).Some?
    && Clear(w, 3 * k + 2, 2 * k + 2)
  }

  /** Such an attempt is the last one and a success. */
  lemma {:induction false} ThenItSucceeds(st: Store, w: World, key: Key, f: Callback, attempt: nat, r: UpdateResult,
                                          end: Store)
    requires RoundResult(st, w, key, f, attempt, r, end) && (r.Contention? ==> attempt == 15)
    requires AllLost(st, w, key, f, if r.Contention? then attempt + 1 else attempt)
    ensures forall k :: 0 <= k < 16 && GoesThroughAt(st, w, key, f, k) ==> r.Ok? && attempt == k
  {
    forall k | 0 <= k < 16 && GoesThroughAt(st, w, key, f, k)
      ensures r.Ok? && attempt == k
    {
      if attempt < k {
        EachLost(st, w, key, f, k, attempt);
      } else if k < (if r.Contention? then attempt + 1 else attempt) {
        EachLost(st, w, key, f, if r.Contention? then attempt + 1 else attempt, k);
      }
    }
  }

  /** How a call that did not come to contention ended its last round. */
  ghost predicate EndsAt(st: Store, w: World, key: Key, f: Callback, attempt: nat, r: UpdateResult, end: Store) {
    AllLost(st, w, key, f, attempt) && !r.Contention? && RoundResult(st, w, key, f, attempt, r, end)
  }

  lemma {:induction false} RoundIsDetermined(st: Store, w: World, key: Key, f: Callback, attempt: nat, r: UpdateResult,
                                             end: Store, r': UpdateResult, end': Store)
    requires WellFormed(AtGet(st, w, attempt))
    requires RoundResult(st, w, key, f, attempt, r, end) && RoundResult(st, w, key, f, attempt, r', end')
    requires !r.Contention? && !r'.Contention?
    ensures r == r' && end == end'
  {
    SameVersionDecides(st, w, key, attempt);
  }

  lemma LostRoundHasNoResult(st: Store, w: World, key: Key, f: Callback, attempt: nat, r: UpdateResult, end: Store)
    requires LostRound(st, w, key, f, attempt) && !r.Contention?
    ensures !RoundResult(st, w, key, f, attempt, r, end)
  {
  }

  /** The world decides how a call ends, and after how many attempts: there is no other way to end it. */
  lemma ResultIsDetermined(st: Store, w: World, key: Key, f: Callback, a: nat, r: UpdateResult, end: Store,
                           a': nat, r': UpdateResult, end': Store)
    requires WellFormed(st) && EndsAt(st, w, key, f, a, r, end) && EndsAt(st, w, key, f, a', r', end')
    ensures a == a' && r == r' && end == end'
  {
    AttemptsWellFormed(st, w, a);
    if a < a' {
      EachLost(st, w, key, f, a', a);
      LostRoundHasNoResult(st, w, key, f, a, r, end);
    } else if a' < a {
      EachLost(st, w, key, f, a, a');
      LostRoundHasNoResult(st, w, key, f, a', r', end');
    } else {
      RoundIsDetermined(st, w, key, f, a, r, end, r', end');
    }
  }

  /** The retry loop. Every attempt before the last was disturbed by rivals, a contention error means
      that all sixteen were, and the first of the sixteen that is neither disturbed nor hindered is the
      last one and writes. */
  method Update(host: State, key: Key, f: Callback, w: World) returns (r: UpdateResult, ghost attempt: nat)
    requires host.Valid()
    modifies host
    ensures host.Valid() && attempt < 16
    ensures RoundResult(old(host.Abs()), w, key, f, attempt, r, host.Abs())
    ensures AllLost(old(host.Abs()), w, key, f, attempt)
    ensures r.Contention? ==> attempt == 15 && AllLost(old(host.Abs()), w, key, f, 16)
    ensures forall k :: 0 <= k < 16 && GoesThroughAt(old(host.Abs()), w, key, f, k) ==> r.Ok? && attempt == k
  {
    ghost var st := host.Abs();
    var tries := 0;
    while tries < StateProtocol.MAX_ATTEMPTS
      invariant host.Valid() && tries <= StateProtocol.MAX_ATTEMPTS
      invariant host.Abs() == if tries == 0 then st else AtSwap(st, w, tries - 1)
      invariant AllLost(st, w, key, f, tries)
    {
      var round := Attempt(host, key, f, w, st, tries);
      if round.Over? {
        ThenItSucceeds(st, w, key, f, tries, round.result, host.Abs());
        return round.result, tries;
      }
      tries := tries + 1;
    }
    ThenItSucceeds(st, w, key, f, tries - 1, Contention, host.Abs());
    return Contention, tries - 1;
  }

  /** What the versioned removal does to the store just before it. */
  ghost function Dropping(st: Store, w: World, key: Key): Store {
    var later := AtSwap(st, w, 0);
    if CellAt(later, key) == CellAt(AtGet(st, w, 0), key) then Remove(later, key) else later
  }

  /** Delete removes the instance its own Get observed, or nothing; an error means that it did not come
      that far, or that the reply to the removal was lost. */
  ghost predicate DeleteResult(st: Store, w: World, key: Key, ok: bool, end: Store) {
    var seen := CellAt(AtGet(st, w, 0), key).Some?;
    if ok then
      && GetHeard(w, 0)
      && if seen then !w.cancelled(1) && !w.lost(1) && end == Dropping(st, w, key) else end == AtGet(st, w, 0)
    else
      || (!GetHeard(w, 0) && end == AtGet(st, w, 0))
      || (GetHeard(w, 0) && seen && w.cancelled(1) && end == AtSwap(st, w, 0))
      || (GetHeard(w, 0) && seen && !w.cancelled(1) && w.lost(1) && end == Dropping(st, w, key))
  }

  method Delete(host: State, key: Key, w: World) returns (ok: bool)
    requires host.Valid()
    modifies host
    ensures host.Valid() && DeleteResult(old(host.Abs()), w, key, ok, host.Abs())
  {
    ghost var st := host.Abs();
    AttemptsWellFormed(st, w, 0);
    Interfere(host, w.rivals(0));
    var seen := host.Invoke(w.cancelled(0), Get(key));
    if w.cancelled(0) || w.lost(0) {
      return false;
    }
    if !seen.found {
      return true;
    }
    ok := Drop(host, key, seen.version, w, st);
  }

  method Drop(host: State, key: Key, version: nat, w: World, ghost st: Store) returns (ok: bool)
    requires host.Valid() && WellFormed(st) && host.Abs() == AtGet(st, w, 0)
    requires key in host.Abs().cells && version == VersionOf(host.Abs(), key)
    modifies host
    ensures host.Valid()
    ensures ok ==> !w.cancelled(1) && !w.lost(1) && host.Abs() == Dropping(st, w, key)
    ensures !ok ==> || (w.cancelled(1) && host.Abs() == AtSwap(st, w, 0))
                    || (!w.cancelled(1) && w.lost(1) && host.Abs() == Dropping(st, w, key))
  {
    AttemptsWellFormed(st, w, 0);
    Interfere(host, w.rivals(1));
    SameVersionDecides(st, w, key, 0);
    var _ := host.Invoke(w.cancelled(1), StateStore.Delete(key, version));
    return !w.cancelled(1) && !w.lost(1);
  }
}
