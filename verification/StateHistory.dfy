/**
 * Sequential histories: what it means for whole operations to happen one after the other, with
 * no Get, compute and swap in between, and what becomes of each stored instance.
 */
module StateHistory {
  import opened Bytes
  import opened StateStore

  /** An update callback; None is its error return. */
  type Callback = Value -> Option<Value>

  /** A whole operation, taking effect at one instant. */
  datatype Event =
    | Updated(call: nat, key: Key, f: Callback)
    | Taken(call: nat, key: Key)
    | Dropped(call: nat, key: Key, version: nat)

  ghost function Effect(st: Store, e: Event): Store {
    match e
    case Updated(_, key, f) =>
      var v := f(ReadValue(st, key));
      if v.Some? then Put(st, key, v.value) else st
    case Taken(_, key) => Remove(st, key)
    case Dropped(_, key, version) => if VersionOf(st, key) == version then Remove(st, key) else st
  }

  ghost function Replay(h: seq<Event>): Store {
    if h == [] then EMPTY else Effect(Replay(h[..|h| - 1]), h[|h| - 1])
  }

  ghost function CellAt(st: Store, key: Key): Option<Cell> {
    if key in st.cells then Some(st.cells[key]) else None
  }

  /** Event i of the history changed what is stored under the key. */
  ghost predicate Changes(h: seq<Event>, i: nat, key: Key)
    requires i < |h|
  {
    CellAt(Replay(h[..i + 1]), key) != CellAt(Replay(h[..i]), key)
  }

  /** The version of the instance that event i ended, by replacing or removing it; 0 if none. */
  ghost function Ends(h: seq<Event>, i: nat): nat
    requires i < |h|
  {
    var before := Replay(h[..i]);
    if Changes(h, i, h[i].key) then VersionOf(before, h[i].key) else 0
  }

  /** The last change of the key, or -1. */
  ghost function LastChange(h: seq<Event>, key: Key): (i: int)
    ensures -1 <= i < |h|
    ensures i >= 0 ==> Changes(h, i, key)
    decreases |h|
  {
    if h == [] then -1
    else if Changes(h, |h| - 1, key) then |h| - 1
    else
      var front := h[..|h| - 1];
      var i := LastChange(front, key);
      assert i >= 0 ==> front[..i + 1] == h[..i + 1] && front[..i] == h[..i];
      i
  }

  lemma ReplayStep(h: seq<Event>, i: nat)
    requires i < |h|
    ensures Replay(h[..i + 1]) == Effect(Replay(h[..i]), h[i])
  {
    assert h[..i + 1][..i] == h[..i];
  }

  lemma {:induction false} ReplayAppend(h: seq<Event>, e: Event)
    ensures Replay(h + [e]) == Effect(Replay(h), e)
  {
    assert (h + [e])[..|h|] == h;
  }

  /** Past the last change the key keeps its cell. */
  lemma {:induction false} UnchangedSince(h: seq<Event>, key: Key, since: nat)
    requires LastChange(h, key) < since <= |h|
    ensures CellAt(Replay(h), key) == CellAt(Replay(h[..since]), key)
    decreases |h|
  {
    if since == |h| {
      assert h[..since] == h;
    } else {
      var front := h[..|h| - 1];
      assert h[..|h|] == h;
      assert front[..since] == h[..since];
      UnchangedSince(front, key, since);
    }
  }

  lemma {:induction false} ReplayWellFormed(h: seq<Event>)
    ensures WellFormed(Replay(h))
    decreases |h|
  {
    if h != [] {
      ReplayWellFormed(h[..|h| - 1]);
    }
  }

  ghost predicate Live(st: Store, version: nat) {
    exists k :: k in st.cells && st.cells[k].version == version
  }

  /** An issued version that is not live stays dead: versions are never reissued. */
  lemma {:induction false} DeadStaysDead(h: seq<Event>, i: nat, version: nat)
    requires i <= |h| && version <= Replay(h[..i]).sequence && !Live(Replay(h[..i]), version)
    ensures !Live(Replay(h), version) && version <= Replay(h).sequence
    decreases |h|
  {
    if i == |h| {
      assert h[..i] == h;
    } else {
      var front := h[..|h| - 1];
      assert front[..i] == h[..i];
      DeadStaysDead(front, i, version);
      EffectKeepsDead(Replay(front), h[|h| - 1], version);
    }
  }

  lemma EffectKeepsDead(st: Store, e: Event, version: nat)
    requires version <= st.sequence && !Live(st, version)
    ensures version <= Effect(st, e).sequence && !Live(Effect(st, e), version)
  {
    var st' := Effect(st, e);
    forall k | k in st'.cells
      ensures st'.cells[k].version != version
    {
      if st'.cells[k].version != st.sequence + 1 {
        assert k in st.cells;
      }
    }
  }

  /** The instance an event ends is live before it and dead after it. */
  lemma EndedIsDead(h: seq<Event>, i: nat)
    requires i < |h| && Ends(h, i) != 0
    ensures Live(Replay(h[..i]), Ends(h, i))
    ensures !Live(Replay(h[..i + 1]), Ends(h, i)) && Ends(h, i) <= Replay(h[..i + 1]).sequence
  {
    ReplayWellFormed(h[..i]);
    ReplayStep(h, i);
    var st, st' := Replay(h[..i]), Replay(h[..i + 1]);
    var key, version := h[i].key, Ends(h, i);
    assert key in st.cells && st.cells[key].version == version;
    forall k | k in st'.cells
      ensures st'.cells[k].version != version
    {
      if k != key {
        assert st'.cells[k] == st.cells[k];
      }
    }
  }

  /** Every instance ends at most once, whether taken, dropped or replaced. */
  lemma EndsOnce(h: seq<Event>, i: nat, j: nat)
    requires i < j < |h| && Ends(h, i) != 0
    ensures Ends(h, i) != Ends(h, j)
  {
    EndedIsDead(h, i);
    assert h[..j][..i + 1] == h[..i + 1];
    DeadStaysDead(h[..j], i + 1, Ends(h, i));
    if Ends(h, j) != 0 {
      EndedIsDead(h, j);
    }
  }

  /** Issued versions count up by one: the n-th successful update of a history issues version n. */
  ghost function UpdatesIn(h: seq<Event>): nat {
    if h == [] then 0
    else
      var n := |h| - 1;
      UpdatesIn(h[..n]) + if h[n].Updated? && h[n].f(ReadValue(Replay(h[..n]), h[n].key)).Some? then 1 else 0
  }

  lemma {:induction false} SequenceCountsUpdates(h: seq<Event>)
    ensures Replay(h).sequence == UpdatesIn(h)
    decreases |h|
  {
    if h != [] {
      SequenceCountsUpdates(h[..|h| - 1]);
    }
  }

  /** Seeing a live version again means the same instance was there all along. */
  lemma {:induction false} SameVersionMeansUntouched(h: seq<Event>, key: Key, since: nat)
    requires since <= |h|
    requires var v := VersionOf(Replay(h[..since]), key); v != 0 && VersionOf(Replay(h), key) == v
    ensures LastChange(h, key) < since
    decreases |h|
  {
    if since < |h| {
      var n := |h| - 1;
      var v := VersionOf(Replay(h), key);
      assert h[..n][..since] == h[..since] && h[..n + 1] == h;
      ReplayWellFormed(h[..since]);
      SequenceNeverShrinks(h[..n], since);
      LiveVersionWasThere(Replay(h[..n]), h[n], key, v);
      SameVersionMeansUntouched(h[..n], key, since);
    }
  }

  lemma LiveVersionWasThere(st: Store, e: Event, key: Key, version: nat)
    requires 0 != version <= st.sequence && VersionOf(Effect(st, e), key) == version
    ensures CellAt(Effect(st, e), key) == CellAt(st, key)
  {
  }

  lemma {:induction false} SequenceNeverShrinks(h: seq<Event>, i: nat)
    requires i <= |h|
    ensures Replay(h[..i]).sequence <= Replay(h).sequence
    decreases |h|
  {
    if i == |h| {
      assert h[..i] == h;
    } else {
      assert h[..|h| - 1][..i] == h[..i];
      SequenceNeverShrinks(h[..|h| - 1], i);
    }
  }
}
