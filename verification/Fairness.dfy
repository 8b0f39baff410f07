/** Weighted fairness: over a full turn of the counter every account is picked as often as it weighs. */
module Fairness {
  import opened Bytes
  import opened AccountStore
  import opened Scheduler

  // ---- Slots by account ----

  function CountId(s: seq<Account>, id: int): nat {
    if s == [] then 0 else CountId(s[..|s| - 1], id) + if s[|s| - 1].id == id then 1 else 0
  }

  lemma {:induction false} CountAppend(s: seq<Account>, t: seq<Account>, id: int)
    ensures CountId(s + t, id) == CountId(s, id) + CountId(t, id)
    decreases |t|
  {
    if t == [] {
      assert s + t == s;
    } else {
      assert (s + t)[..|s + t| - 1] == s + t[..|t| - 1];
      CountAppend(s, t[..|t| - 1], id);
    }
  }

  lemma {:induction false} CountRepeat(a: Account, n: nat, id: int)
    ensures CountId(Repeat(a, n), id) == if a.id == id then n else 0
  {
    if n > 0 {
      assert (Repeat(a, n - 1) + [a])[..n - 1] == Repeat(a, n - 1);
      CountRepeat(a, n - 1, id);
    }
  }

  /** An account's part of the slots: its weight, or nothing while it cools or is not listed. */
  lemma {:induction false} CountSlots(accounts: seq<Account>, cooldown: Cooldowns, now: int, id: int)
    requires Unique(accounts)
    ensures CountId(Slots(accounts, cooldown, now), id) ==
            if Lookup(accounts, id).Some? && !Cooling(cooldown, id, now)
            then Max(1, Lookup(accounts, id).value.weight) else 0
    decreases |accounts|
  {
    if accounts != [] {
      var init, a := accounts[..|accounts| - 1], accounts[|accounts| - 1];
      CountSlots(init, cooldown, now, id);
      CountLast(accounts, init, a, cooldown, now, id);
      LookupInit(accounts, id);
    }
  }

  lemma {:induction false} CountLast(accounts: seq<Account>, init: seq<Account>, a: Account, cooldown: Cooldowns,
                                     now: int, id: int)
    requires accounts != [] && init == accounts[..|accounts| - 1] && a == accounts[|accounts| - 1]
    ensures CountId(Slots(accounts, cooldown, now), id) ==
            CountId(Slots(init, cooldown, now), id)
            + if a.id == id && !Cooling(cooldown, id, now) then Max(1, a.weight) else 0
  {
    CountAppend(Slots(init, cooldown, now), if Cooling(cooldown, a.id, now) then [] else Repeat(a, Weight(a)), id);
    CountRepeat(a, Weight(a), id);
  }

  lemma LookupInit(accounts: seq<Account>, id: int)
    requires accounts != [] && Unique(accounts)
    ensures Lookup(accounts, id) == if accounts[|accounts| - 1].id == id then Some(accounts[|accounts| - 1])
                                    else Lookup(accounts[..|accounts| - 1], id)
  {
    var init := accounts[..|accounts| - 1];
    var i, k := IndexOf(accounts, id), IndexOf(init, id);
    if i < |init| {
      assert accounts[i] == init[i];
    }
    if k < |init| {
      assert accounts[k] == init[k];
    }
  }

  // ---- The counter ----

  lemma {:induction false} AtLeastOnce(a: int, n: int)
    requires a >= 1 && n > 0
    ensures a * n >= n
  {
    if a > 1 {
      AtLeastOnce(a - 1, n);
      assert a * n == (a - 1) * n + n;
    }
  }

  lemma Distribute(a: int, b: int, n: int)
    ensures (a - b) * n == a * n - b * n
  {
  }

  lemma ModIs(x: nat, n: nat, q: nat, r: nat)
    requires n > 0 && x == q * n + r && r < n
    ensures x % n == r
  {
    var p := x / n;
    Distribute(p, q, n);
    Distribute(q, p, n);
    if p > q {
      AtLeastOnce(p - q, n);
    } else if q > p {
      AtLeastOnce(q - p, n);
    }
  }

  lemma ModShift(c: nat, k: nat, n: nat)
    requires k < n
    ensures (c + k) % n == if c % n + k < n then c % n + k else c % n + k - n
  {
    var q, r := c / n, c % n;
    assert c == q * n + r;
    if r + k < n {
      ModIs(c + k, n, q, r + k);
    } else {
      assert (q + 1) * n == q * n + n;
      ModIs(c + k, n, q + 1, r + k - n);
    }
  }

  /** The counter after `k` selections. */
  function Up(c: nat, k: nat): nat {
    if k == 0 then c else Increment(Up(c, k - 1))
  }

  lemma {:induction false} UpIs(c: nat, k: nat)
    requires c < COUNTER_LIMIT && k <= COUNTER_LIMIT
    ensures Up(c, k) == if c + k < COUNTER_LIMIT then c + k else c + k - COUNTER_LIMIT
  {
    if k > 0 {
      UpIs(c, k - 1);
    }
  }

  /** The slot used by the selection that follows `k` others. */
  function IndexAt(c: nat, k: nat, n: nat): nat
    requires n > 0
  {
    Up(c, k) % n
  }

  /** A window of `n` selections is not broken by the wrap of the counter. */
  predicate Unbroken(c: nat, n: nat)
    requires n > 0
  {
    c + n <= COUNTER_LIMIT || COUNTER_LIMIT % n == 0
  }

  lemma UnbrokenIndex(c: nat, k: nat, n: nat)
    requires k < n && c < COUNTER_LIMIT && Unbroken(c, n)
    ensures IndexAt(c, k, n) == (c + k) % n
  {
    if n > COUNTER_LIMIT {
      ModIs(COUNTER_LIMIT, n, 0, COUNTER_LIMIT);
    }
    UpIs(c, k);
    if c + k >= COUNTER_LIMIT {
      var x, m := c + k - COUNTER_LIMIT, COUNTER_LIMIT / n;
      var q, r := x / n, x % n;
      Distribute(q + m, m, n);
      ModIs(c + k, n, q + m, r);
    }
  }

  ghost predicate NoSlotTwice(c: nat, n: nat)
    requires n > 0
  {
    forall j, k :: 0 <= j < k < n ==> IndexAt(c, j, n) != IndexAt(c, k, n)
  }

  /** A window uses every slot once if and only if it is unbroken: a wrap inside the window repeats a
      slot unless the number of slots divides the counter's range. */
  lemma EverySlotOnce(c: nat, n: nat)
    requires n > 0 && c < COUNTER_LIMIT
    ensures NoSlotTwice(c, n) <==> Unbroken(c, n)
  {
    if Unbroken(c, n) {
      forall j, k | 0 <= j < k < n
        ensures IndexAt(c, j, n) != IndexAt(c, k, n)
      {
        UnbrokenIndex(c, j, n);
        UnbrokenIndex(c, k, n);
        ModShift(c, j, n);
        ModShift(c, k, n);
      }
    } else {
      BrokenRepeats(c, n);
    }
  }

  lemma RepeatsFirst(c: nat, n: nat, q: nat, m: nat)
    requires n > 0 && c < COUNTER_LIMIT == q * n + m && m < n && c + m >= COUNTER_LIMIT
    ensures IndexAt(c, 0, n) == IndexAt(c, m, n)
  {
    var x := c + m - COUNTER_LIMIT;
    UpIs(c, m);
    ModIs(c, n, q, x);
    ModIs(x, n, 0, x);
  }

  lemma RepeatsZero(c: nat, n: nat, q: nat, m: nat)
    requires n > 0 && c < COUNTER_LIMIT == q * n + m && m < n && 0 < m < COUNTER_LIMIT - c
    ensures IndexAt(c, COUNTER_LIMIT - c - m, n) == IndexAt(c, COUNTER_LIMIT - c, n)
  {
    UpIs(c, COUNTER_LIMIT - c - m);
    UpIs(c, COUNTER_LIMIT - c);
    ModIs(COUNTER_LIMIT - m, n, q, 0);
    ModIs(0, n, 0, 0);
  }

  lemma BrokenRepeats(c: nat, n: nat)
    requires n > 0 && c < COUNTER_LIMIT && !Unbroken(c, n)
    ensures exists j, k :: 0 <= j < k < n && IndexAt(c, j, n) == IndexAt(c, k, n)
  {
    var m, q := COUNTER_LIMIT % n, COUNTER_LIMIT / n;
    if c + m >= COUNTER_LIMIT {
      RepeatsFirst(c, n, q, m);
    } else {
      RepeatsZero(c, n, q, m);
    }
  }

  // ---- A window of selections ----

  datatype RR = RR(cooldown: Cooldowns, counter: nat)

  function After(s: RR, accounts: seq<Account>, nows: seq<int>): RR {
    if nows == [] then s
    else
      var p := After(s, accounts, nows[..|nows| - 1]);
      var last := nows[|nows| - 1];
      RR(Expire(p.cooldown, accounts, last), CounterAfter(accounts, p.cooldown, p.counter, last))
  }

  /** The account picked at each time, one after the other, from an account list that stays. */
  function Picks(s: RR, accounts: seq<Account>, nows: seq<int>): seq<Option<Account>> {
    if nows == [] then []
    else
      var init := nows[..|nows| - 1];
      var p := After(s, accounts, init);
      Picks(s, accounts, init) + [PickRR(accounts, p.cooldown, p.counter, nows[|nows| - 1])]
  }

  function CountPicks(picks: seq<Option<Account>>, id: int): nat {
    if picks == [] then 0
    else
      var last := picks[|picks| - 1];
      CountPicks(picks[..|picks| - 1], id) + if last.Some? && last.value.id == id then 1 else 0
  }

  ghost predicate SameCooling(accounts: seq<Account>, c1: Cooldowns, now1: int, c2: Cooldowns, now2: int) {
    forall i :: 0 <= i < |accounts| ==> (Cooling(c1, accounts[i].id, now1) <==> Cooling(c2, accounts[i].id, now2))
  }

  /** No listed account starts or ends cooling between the first of these times and any other. */
  ghost predicate Steady(cooldown: Cooldowns, accounts: seq<Account>, nows: seq<int>) {
    forall k :: 0 <= k < |nows| ==> SameCooling(accounts, cooldown, nows[k], cooldown, nows[0])
  }

  lemma {:induction false} SameSlots(accounts: seq<Account>, c1: Cooldowns, now1: int, c2: Cooldowns, now2: int)
    requires SameCooling(accounts, c1, now1, c2, now2)
    ensures Slots(accounts, c1, now1) == Slots(accounts, c2, now2)
    decreases |accounts|
  {
    if accounts != [] {
      SameSlots(accounts[..|accounts| - 1], c1, now1, c2, now2);
    }
  }

  lemma ExpireSame(accounts: seq<Account>, c: Cooldowns, now: int, later: int, c0: Cooldowns, now0: int)
    requires SameCooling(accounts, c, now, c0, now0) && SameCooling(accounts, c, later, c0, now0)
    ensures SameCooling(accounts, Expire(c, accounts, now), later, c0, now0)
  {
    forall i | 0 <= i < |accounts|
      ensures Cooling(Expire(c, accounts, now), accounts[i].id, later) <==> Cooling(c0, accounts[i].id, now0)
    {
      assert Cooling(c, accounts[i].id, now) <==> Cooling(c, accounts[i].id, later);
      assert Listed(accounts, accounts[i].id);
    }
  }

  lemma {:induction false} AfterOne(s: RR, accounts: seq<Account>, nows: seq<int>, k: nat)
    requires k < |nows|
    ensures var p := After(s, accounts, nows[..k]); var r := After(s, accounts, nows[..k + 1]);
            && r.cooldown == Expire(p.cooldown, accounts, nows[k])
            && r.counter == CounterAfter(accounts, p.cooldown, p.counter, nows[k])
  {
    assert nows[..k + 1][..k] == nows[..k];
  }

  /** Throughout a steady window the same accounts are cooling. */
  lemma {:induction false} CoolingKept(s: RR, accounts: seq<Account>, nows: seq<int>, k: nat, j: nat)
    requires k <= |nows| && j < |nows| && Steady(s.cooldown, accounts, nows)
    ensures SameCooling(accounts, After(s, accounts, nows[..k]).cooldown, nows[j], s.cooldown, nows[0])
    decreases k
  {
    if k > 0 {
      CoolingKept(s, accounts, nows, k - 1, j);
      CoolingKept(s, accounts, nows, k - 1, k - 1);
      var c := After(s, accounts, nows[..k - 1]).cooldown;
      ExpireSame(accounts, c, nows[k - 1], nows[j], s.cooldown, nows[0]);
      AfterOne(s, accounts, nows, k - 1);
    }
  }

  lemma {:induction false} SlotsKept(s: RR, accounts: seq<Account>, nows: seq<int>, k: nat)
    requires k < |nows| && Steady(s.cooldown, accounts, nows)
    ensures Slots(accounts, After(s, accounts, nows[..k]).cooldown, nows[k]) == Slots(accounts, s.cooldown, nows[0])
  {
    CoolingKept(s, accounts, nows, k, k);
    SameSlots(accounts, After(s, accounts, nows[..k]).cooldown, nows[k], s.cooldown, nows[0]);
  }

  lemma {:induction false} CounterOne(s: RR, accounts: seq<Account>, nows: seq<int>, k: nat, before: seq<int>,
                                      after: seq<int>)
    requires k < |nows| && Steady(s.cooldown, accounts, nows) && before == nows[..k] && after == nows[..k + 1]
    requires Slots(accounts, s.cooldown, nows[0]) != []
    ensures After(s, accounts, after).counter == Increment(After(s, accounts, before).counter)
  {
    AfterOne(s, accounts, nows, k);
    SlotsKept(s, accounts, nows, k);
  }

  /** Throughout a steady window the counter goes up by one each time. */
  lemma {:induction false} CounterRuns(s: RR, accounts: seq<Account>, nows: seq<int>, k: nat)
    requires k <= |nows| && Steady(s.cooldown, accounts, nows)
    requires nows != [] && Slots(accounts, s.cooldown, nows[0]) != []
    ensures After(s, accounts, nows[..k]).counter == Up(s.counter, k)
  {
    if k > 0 {
      CounterRuns(s, accounts, nows, k - 1);
      CounterOne(s, accounts, nows, k - 1, nows[..k - 1], nows[..k]);
    }
  }

  lemma {:induction false} PickIs(s: RR, accounts: seq<Account>, nows: seq<int>, k: nat)
    requires k < |nows| && s.counter < COUNTER_LIMIT && Steady(s.cooldown, accounts, nows)
    requires Slots(accounts, s.cooldown, nows[0]) != []
    ensures PickAfter(s, accounts, nows[..k], nows[k]) ==
            Some(SlotAt(Slots(accounts, s.cooldown, nows[0]), Up(s.counter, k)))
  {
    CounterRuns(s, accounts, nows, k);
    SlotsKept(s, accounts, nows, k);
  }

  lemma {:induction false} PicksLength(s: RR, accounts: seq<Account>, nows: seq<int>)
    ensures |Picks(s, accounts, nows)| == |nows|
    decreases |nows|
  {
    if nows != [] {
      PicksLength(s, accounts, nows[..|nows| - 1]);
    }
  }

  /** What is picked at time `now` after the selections at `nows`. */
  function PickAfter(s: RR, accounts: seq<Account>, nows: seq<int>, now: int): Option<Account> {
    var p := After(s, accounts, nows);
    PickRR(accounts, p.cooldown, p.counter, now)
  }

  lemma {:induction false} PicksLast(s: RR, accounts: seq<Account>, nows: seq<int>, now: int)
    ensures Picks(s, accounts, nows + [now]) == Picks(s, accounts, nows) + [PickAfter(s, accounts, nows, now)]
  {
    assert (nows + [now])[..|nows|] == nows;
  }

  lemma {:induction false} PicksAt(s: RR, accounts: seq<Account>, nows: seq<int>, k: nat)
    requires k < |nows|
    ensures |Picks(s, accounts, nows)| == |nows|
    ensures Picks(s, accounts, nows)[k] == PickAfter(s, accounts, nows[..k], nows[k])
    decreases |nows|
  {
    var front, last := nows[..|nows| - 1], nows[|nows| - 1];
    assert nows == front + [last];
    PicksLast(s, accounts, front, last);
    PicksLength(s, accounts, front);
    if k < |front| {
      PicksAt(s, accounts, front, k);
      assert front[..k] == nows[..k];
    } else {
      assert nows[..k] == front;
    }
  }

  lemma {:induction false} CountRotated(picks: seq<Option<Account>>, accounts: seq<Account>, id: int)
    requires |picks| == |accounts| && forall k :: 0 <= k < |picks| ==> picks[k] == Some(accounts[k])
    ensures CountPicks(picks, id) == CountId(accounts, id)
    decreases |picks|
  {
    if picks != [] {
      CountRotated(picks[..|picks| - 1], accounts[..|picks| - 1], id);
    }
  }

  /** The slots in the order in which a full turn from counter `c` goes through them. */
  function Turned(slots: seq<Account>, c: nat): (r: seq<Account>)
    requires slots != []
    ensures |r| == |slots|
  {
    slots[c % |slots|..] + slots[..c % |slots|]
  }

  lemma {:induction false} TurnedAt(slots: seq<Account>, c: nat, k: nat)
    requires k < |slots| && c < COUNTER_LIMIT && Unbroken(c, |slots|)
    ensures SlotAt(slots, Up(c, k)) == Turned(slots, c)[k]
  {
    UnbrokenIndex(c, k, |slots|);
    ModShift(c, k, |slots|);
  }

  lemma {:induction false} PickInWindow(s: RR, accounts: seq<Account>, nows: seq<int>, k: nat)
    requires k < |nows| && s.counter < COUNTER_LIMIT && Steady(s.cooldown, accounts, nows)
    requires |nows| == |Slots(accounts, s.cooldown, nows[0])|
    ensures |Picks(s, accounts, nows)| == |nows|
    ensures Picks(s, accounts, nows)[k] ==
            Some(SlotAt(Slots(accounts, s.cooldown, nows[0]), Up(s.counter, k)))
  {
    PicksAt(s, accounts, nows, k);
    PickIs(s, accounts, nows, k);
  }

  lemma {:induction false} PickTurned(s: RR, accounts: seq<Account>, nows: seq<int>, k: nat)
    requires k < |nows| && s.counter < COUNTER_LIMIT && Steady(s.cooldown, accounts, nows)
    requires |nows| == |Slots(accounts, s.cooldown, nows[0])|
    requires Unbroken(s.counter, |Slots(accounts, s.cooldown, nows[0])|)
    ensures |Picks(s, accounts, nows)| == |nows|
    ensures Picks(s, accounts, nows)[k] == Some(Turned(Slots(accounts, s.cooldown, nows[0]), s.counter)[k])
  {
    PickInWindow(s, accounts, nows, k);
    TurnedAtNow(s, accounts, nows[0], k);
  }

  lemma {:induction false} TurnedAtNow(s: RR, accounts: seq<Account>, now: int, k: nat)
    requires k < |Slots(accounts, s.cooldown, now)| && s.counter < COUNTER_LIMIT
    requires Unbroken(s.counter, |Slots(accounts, s.cooldown, now)|)
    ensures SlotAt(Slots(accounts, s.cooldown, now), Up(s.counter, k)) ==
            Turned(Slots(accounts, s.cooldown, now), s.counter)[k]
  {
    TurnedAt(Slots(accounts, s.cooldown, now), s.counter, k);
  }

  lemma {:induction false} CountTurned(slots: seq<Account>, c: nat, id: int)
    requires slots != []
    ensures CountId(Turned(slots, c), id) == CountId(slots, id)
  {
    var r := c % |slots|;
    CountAppend(slots[r..], slots[..r], id);
    CountAppend(slots[..r], slots[r..], id);
    assert slots[..r] + slots[r..] == slots;
  }

  /** Over a window of as many selections as there are slots, from any counter whose wrap does not break
      the window, every account is picked exactly as often as it weighs, or never while it cools. */
  lemma {:induction false} WeightedFairness(s: RR, accounts: seq<Account>, nows: seq<int>, id: int)
    requires Unique(accounts) && s.counter < COUNTER_LIMIT && Steady(s.cooldown, accounts, nows)
    requires nows != [] && |nows| == |Slots(accounts, s.cooldown, nows[0])|
    requires Unbroken(s.counter, |Slots(accounts, s.cooldown, nows[0])|)
    ensures CountPicks(Picks(s, accounts, nows), id) ==
            if Lookup(accounts, id).Some? && !Cooling(s.cooldown, id, nows[0])
            then Max(1, Lookup(accounts, id).value.weight) else 0
  {
    var slots, picks := Slots(accounts, s.cooldown, nows[0]), Picks(s, accounts, nows);
    forall k | 0 <= k < |nows|
      ensures |picks| == |nows| && picks[k] == Some(Turned(slots, s.counter)[k])
    {
      PickTurned(s, accounts, nows, k);
    }
    assert |picks| == |nows| by {
      PickTurned(s, accounts, nows, 0);
    }
    CountRotated(picks, Turned(slots, s.counter), id);
    CountTurned(slots, s.counter, id);
    CountSlots(accounts, s.cooldown, nows[0], id);
  }

  lemma WrapTurn(slots: seq<Account>, k: nat)
    requires |slots| == 3 && k < 3
    ensures SlotAt(slots, Up(COUNTER_LIMIT - 1, k)) == slots[if k < 2 then 0 else 1]
  {
    UpIs(COUNTER_LIMIT - 1, k);
  }

  lemma {:induction false} SlotsOfThree(a: Account, b: Account, c: Account, now: int)
    requires a.weight == b.weight == c.weight == 1
    ensures Slots([a, b, c], map[], now) == [a, b, c]
  {
    assert [a, b, c][..2] == [a, b] && [a, b][..1] == [a] && [a][..0] == [];
    assert Repeat(a, 1) == [a] && Repeat(b, 1) == [b] && Repeat(c, 1) == [c];
    assert Slots([a], map[], now) == [a];
    assert Slots([a, b], map[], now) == [a, b];
  }

  lemma WrapPick(accounts: seq<Account>, nows: seq<int>, k: nat)
    requires |accounts| == 3 && |nows| == 3 && Slots(accounts, map[], nows[0]) == accounts && k < 3
    ensures |Picks(RR(map[], COUNTER_LIMIT - 1), accounts, nows)| == 3
    ensures Picks(RR(map[], COUNTER_LIMIT - 1), accounts, nows)[k] == Some(accounts[if k < 2 then 0 else 1])
  {
    WrapTurn(accounts, k);
    PickInWindow(RR(map[], COUNTER_LIMIT - 1), accounts, nows, k);
  }

  /** A wrap that breaks the window is not fair: of three equal accounts, picked from the last value of
      the counter, the first has two turns and the third has none. */
  lemma WrapSkips(a: Account, b: Account, c: Account, nows: seq<int>, k: nat)
    requires a.weight == b.weight == c.weight == 1 && |nows| == 3 && k < 3
    ensures |Picks(RR(map[], COUNTER_LIMIT - 1), [a, b, c], nows)| == 3
    ensures Picks(RR(map[], COUNTER_LIMIT - 1), [a, b, c], nows)[k] == Some(if k < 2 then a else b)
  {
    SlotsOfThree(a, b, c, nows[0]);
    WrapPick([a, b, c], nows, k);
  }
}
