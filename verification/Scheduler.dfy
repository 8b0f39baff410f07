/** The account scheduler: weighted round robin over slots, with cooldowns driven by a clock. */
module Scheduler {
  import opened Bytes
  import opened Outcomes
  import opened AccountStore

  /** Direct always uses one account; every other policy is weighted round robin. */
  datatype Policy = Direct | WeightedRR

  const COUNTER_LIMIT := 0x1_0000_0000_0000_0000

  /** Nanoseconds. */
  const MINUTE := 60_000_000_000

  type Cooldowns = map<int, int>

  // ---- What a selection is ----

  predicate Cooling(cooldown: Cooldowns, id: int, now: int) {
    id in cooldown && now < cooldown[id]
  }

  function Weight(a: Account): nat {
    if a.weight <= 0 then 1 else a.weight
  }

  function Repeat(a: Account, n: nat): (r: seq<Account>)
    ensures |r| == n && forall k :: 0 <= k < n ==> r[k] == a
  {
    if n == 0 then [] else Repeat(a, n - 1) + [a]
  }

  /** Every account that is not cooling, as often as its weight says. */
  function Slots(accounts: seq<Account>, cooldown: Cooldowns, now: int): seq<Account> {
    if accounts == [] then []
    else
      var a := accounts[|accounts| - 1];
      Slots(accounts[..|accounts| - 1], cooldown, now)
      + if Cooling(cooldown, a.id, now) then [] else Repeat(a, Weight(a))
  }

  predicate Listed(accounts: seq<Account>, id: int) {
    IndexOf(accounts, id) < |accounts|
  }

  /** Forgets the expired cooldowns of listed accounts; unlisted ones stay. */
  function Expire(cooldown: Cooldowns, accounts: seq<Account>, now: int): Cooldowns {
    map id | id in cooldown && (now < cooldown[id] || !Listed(accounts, id)) :: cooldown[id]
  }

  function SlotAt(slots: seq<Account>, counter: nat): Account
    requires slots != []
  {
    slots[counter % |slots|]
  }

  function PickRR(accounts: seq<Account>, cooldown: Cooldowns, counter: nat, now: int): Option<Account> {
    var slots := Slots(accounts, cooldown, now);
    if accounts == [] then None
    else if slots == [] then Some(accounts[0])
    else Some(SlotAt(slots, counter))
  }

  /** Incrementing a Go uint64, which wraps around. */
  function Increment(counter: nat): nat {
    if counter + 1 == COUNTER_LIMIT then 0 else counter + 1
  }

  function CounterAfter(accounts: seq<Account>, cooldown: Cooldowns, counter: nat, now: int): nat {
    if Slots(accounts, cooldown, now) == [] then counter else Increment(counter)
  }

  /** The counter counts to 2^64 and then begins again. */
  lemma CounterIsUint64(counter: nat)
    requires counter < 0x1_0000_0000_0000_0000
    ensures COUNTER_LIMIT == 0x1_0000_0000_0000_0000
    ensures Increment(counter) == if counter == 0xFFFF_FFFF_FFFF_FFFF then 0 else counter + 1
  {
  }

  /** A selection finds an account exactly when there is one, one of those listed, and moves the counter
      on exactly when it used it. */
  lemma PickIsListed(accounts: seq<Account>, cooldown: Cooldowns, counter: nat, now: int)
    ensures var pick := PickRR(accounts, cooldown, counter, now);
            && (pick.None? <==> accounts == []) && (pick.Some? ==> pick.value in accounts)
            && var rested := exists k :: 0 <= k < |accounts| && !Cooling(cooldown, accounts[k].id, now);
            && (pick.Some? && rested ==> !Cooling(cooldown, pick.value.id, now))
            && (rested <==> CounterAfter(accounts, cooldown, counter, now) == Increment(counter))
            && (!rested <==> CounterAfter(accounts, cooldown, counter, now) == counter)
  {
    SlotsAreRested(accounts, cooldown, now);
    if k :| 0 <= k < |accounts| && !Cooling(cooldown, accounts[k].id, now) {
      RestedHasSlots(accounts, cooldown, now, k);
    }
  }

  lemma {:induction false} RestedHasSlots(accounts: seq<Account>, cooldown: Cooldowns, now: int, k: nat)
    requires k < |accounts| && !Cooling(cooldown, accounts[k].id, now)
    ensures Slots(accounts, cooldown, now) != []
    decreases |accounts|
  {
    if k < |accounts| - 1 {
      RestedHasSlots(accounts[..|accounts| - 1], cooldown, now, k);
    }
  }

  /** Forgetting expired cooldowns lifts none that still lasts, and leaves none of a listed account that
      has run out. */
  lemma ExpiryLiftsNothing(cooldown: Cooldowns, accounts: seq<Account>, now: int, id: int)
    ensures var after := Expire(cooldown, accounts, now);
            && (Cooling(after, id, now) <==> Cooling(cooldown, id, now))
            && (id in after ==> id in cooldown && after[id] == cooldown[id])
            && var listed := exists k :: 0 <= k < |accounts| && accounts[k].id == id;
            (id in cooldown ==> (id !in after <==> listed && !Cooling(cooldown, id, now)))
  {
  }

  /** The pinned account as the list first was, or else the first account of the list a moment later. */
  function PickDirect(accounts: seq<Account>, later: seq<Account>, pinnedID: int): Option<Account> {
    if pinnedID > 0 && Lookup(accounts, pinnedID).Some? then Lookup(accounts, pinnedID)
    else if later == [] then None else Some(later[0])
  }

  /** Others edit the list while no lock is held. */
  method Interfere(store: AccountStore, edits: seq<Edit>)
    modifies store
    ensures Contents(store.accounts, store.nextID) == ApplyAll(Contents(old(store.accounts), old(store.nextID)), edits)
  {
    ghost var was := Contents(store.accounts, store.nextID);
    for i := 0 to |edits|
      invariant Contents(store.accounts, store.nextID) == ApplyAll(was, edits[..i])
    {
      assert edits[..i + 1][..i] == edits[..i];
      match edits[i] {
        case Create(a) => var _ := store.Create(a);
        case Update(id, a) => var _ := store.Update(id, a);
        case Delete(id) => var _ := store.Delete(id);
      }
    }
    assert edits[..|edits|] == edits;
  }

  // ---- What a report does ----

  /** How long a verdict cools its account, if it does. */
  function CoolingTime(kind: Kind, retryAfter: int): Option<int> {
    if kind == ACCOUNT_RATE_LIMITED then Some(if retryAfter <= 0 then MINUTE else retryAfter)
    else if kind == ACCOUNT_DEAD then Some(5 * MINUTE)
    else if kind == ACCOUNT_UNAVAILABLE then Some(MINUTE)
    else None
  }

  function Reported(cooldown: Cooldowns, id: int, kind: Kind, retryAfter: int, now: int): Cooldowns {
    var d := CoolingTime(kind, retryAfter);
    if d.Some? then cooldown[id := now + d.value] else cooldown - {id}
  }

  /** When an account is cooling after a report on it: a rate limit lasts as long as the upstream asks,
      or a minute if it does not say, a dead account five minutes, an unavailable one a minute, and any
      other verdict lifts what was there. A report touches no other account. */
  lemma ReportCools(cooldown: Cooldowns, id: int, kind: Kind, retryAfter: int, now: int, other: int, t: int)
    ensures var after := Reported(cooldown, id, kind, retryAfter, now);
            && (Cooling(after, id, t) <==>
                  || (kind == ACCOUNT_RATE_LIMITED && retryAfter > 0 && t < now + retryAfter)
                  || (kind == ACCOUNT_RATE_LIMITED && retryAfter <= 0 && t < now + 60_000_000_000)
                  || (kind == ACCOUNT_DEAD && t < now + 300_000_000_000)
                  || (kind == ACCOUNT_UNAVAILABLE && t < now + 60_000_000_000))
            && (other != id ==> (Cooling(after, other, t) <==> Cooling(cooldown, other, t)))
            && (kind !in {ACCOUNT_RATE_LIMITED, ACCOUNT_DEAD, ACCOUNT_UNAVAILABLE} ==> after == cooldown - {id})
  {
  }

  /** The direct policy returns the account with the pinned identifier whenever the list has one, and
      else the first account of the list as it is by then; without a list, none. */
  lemma PinnedIsPicked(accounts: seq<Account>, later: seq<Account>, pinnedID: int)
    ensures var pick := PickDirect(accounts, later, pinnedID);
            var pinned := pinnedID > 0 && exists i :: 0 <= i < |accounts| && accounts[i].id == pinnedID;
            && (pinned ==> pick.Some? && pick.value in accounts && pick.value.id == pinnedID)
            && (!pinned ==> pick == if later == [] then None else Some(later[0]))
  {
  }

  class Scheduler {
    const store: AccountStore
    var policy: Policy
    var cooldown: Cooldowns
    var counter: nat
    var pinnedID: int

    ghost predicate Valid()
      reads this
    {
      counter < COUNTER_LIMIT
    }

    constructor (store: AccountStore, policy: Policy)
      ensures Valid() && this.store == store && this.policy == policy
      ensures cooldown == map[] && counter == 0 && pinnedID == 0
    {
      this.store, this.policy := store, policy;
      cooldown, counter, pinnedID := map[], 0, 0;
    }

    /** Under the direct policy the list is read twice, and `rivals` may edit it in between. */
    method Select(now: int, rivals: seq<Edit>) returns (r: Option<Account>)
      requires Valid()
      modifies this`cooldown, this`counter, store
      ensures Valid()
      ensures policy.Direct? ==> cooldown == old(cooldown) && counter == old(counter)
      ensures policy.Direct? ==>
                var later := ApplyAll(Contents(old(store.accounts), old(store.nextID)), rivals).accounts;
                r == PickDirect(old(store.accounts), later, pinnedID)
      ensures policy.WeightedRR? ==> store.accounts == old(store.accounts)
      ensures policy.WeightedRR? ==> r == PickRR(store.accounts, old(cooldown), old(counter), now)
      ensures policy.WeightedRR? ==> cooldown == Expire(old(cooldown), store.accounts, now)
      ensures policy.WeightedRR? ==> counter == CounterAfter(store.accounts, old(cooldown), old(counter), now)
    {
      if policy.Direct? {
        if pinnedID > 0 {
          r := store.Get(pinnedID);
          if r.Some? {
            return;
          }
        }
        Interfere(store, rivals);
        r := store.First();
      } else {
        r := SelectWeightedRR(now);
      }
    }

    method SelectWeightedRR(now: int) returns (r: Option<Account>)
      requires Valid()
      modifies this`cooldown, this`counter
      ensures Valid()
      ensures r == PickRR(store.accounts, old(cooldown), old(counter), now)
      ensures cooldown == Expire(old(cooldown), store.accounts, now)
      ensures counter == CounterAfter(store.accounts, old(cooldown), old(counter), now)
    {
      var accounts := store.List();
      if |accounts| == 0 {
        ExpireNone(cooldown, now);
        return None;
      }
      var slots := BuildSlots(accounts, now);
      if |slots| == 0 {
        return Some(accounts[0]);
      }
      r := Some(slots[counter % |slots|]);
      counter := Increment(counter);
    }

    method BuildSlots(accounts: seq<Account>, now: int) returns (slots: seq<Account>)
      modifies this`cooldown
      ensures slots == Slots(accounts, old(cooldown), now)
      ensures cooldown == Expire(old(cooldown), accounts, now)
    {
      slots := [];
      ghost var was := cooldown;
      ExpireNone(was, now);
      for i := 0 to |accounts|
        invariant slots == Slots(accounts[..i], was, now)
        invariant cooldown == Expire(was, accounts[..i], now)
      {
        var a := accounts[i];
        assert accounts[..i + 1][..i] == accounts[..i];
        ExpireOne(was, accounts[..i], a, now);
        assert accounts[..i] + [a] == accounts[..i + 1];
        if Cooling(cooldown, a.id, now) {
          continue;
        }
        cooldown := cooldown - {a.id};
        var more := AddSlots(a);
        slots := slots + more;
      }
      assert accounts[..|accounts|] == accounts;
    }

    static method AddSlots(a: Account) returns (slots: seq<Account>)
      ensures slots == Repeat(a, Weight(a))
    {
      var w := a.weight;
      if w <= 0 {
        w := 1;
      }
      slots := [];
      for j := 0 to w
        invariant slots == Repeat(a, j)
      {
        slots := slots + [a];
      }
    }

    method ReportResult(id: int, kind: Kind, retryAfter: int, now: int)
      modifies this`cooldown
      ensures cooldown == if policy.Direct? then old(cooldown) else Reported(old(cooldown), id, kind, retryAfter, now)
    {
      if policy.Direct? {
        return;
      }
      if kind == ACCOUNT_RATE_LIMITED {
        var d := retryAfter;
        if d <= 0 {
          d := MINUTE;
        }
        cooldown := cooldown[id := now + d];
      } else if kind == ACCOUNT_DEAD {
        cooldown := cooldown[id := now + 5 * MINUTE];
      } else if kind == ACCOUNT_UNAVAILABLE {
        cooldown := cooldown[id := now + MINUTE];
      } else {
        cooldown := cooldown - {id};
      }
    }

    method SetPolicy(policy: Policy)
      modifies this`policy
      ensures this.policy == policy
    {
      this.policy := policy;
    }

    method SetPinned(id: int)
      modifies this`pinnedID
      ensures pinnedID == id
    {
      pinnedID := id;
    }

    method IsRetryable(outcome: Outcome, failed: bool) returns (r: bool)
      ensures r == Retryable(policy, outcome.kind, failed)
      ensures policy.WeightedRR? && ShouldFailover(outcome) ==> r
      ensures r && !failed && outcome.scope != Terminal ==> ShouldFailover(outcome)
    {
      if policy.Direct? {
        return false;
      }
      if failed {
        return true;
      }
      return KindShouldFailover(outcome.kind);
    }
  }

  /** Looks at the kind only, not at the outcome's scope. */
  predicate Retryable(policy: Policy, kind: Kind, failed: bool) {
    policy.WeightedRR? && (failed || KindShouldFailover(kind))
  }

  /** The development loop retries more than the outcome allows: exactly after an error, or when a
      terminal scope forbids what the kind would permit. */
  lemma RetriesBeyondFailover(outcome: Outcome, failed: bool)
    ensures Retryable(WeightedRR, outcome.kind, failed) && !ShouldFailover(outcome)
       <==> || (failed && !KindShouldFailover(outcome.kind))
            || (KindShouldFailover(outcome.kind) && outcome.scope == Terminal)
  {
  }

  /** An upstream failure that is terminal for every account is retried all the same. */
  lemma TerminalIsRetried(reason: string)
    ensures var o := ZERO_OUTCOME.(kind := UPSTREAM_TRANSIENT, scope := Terminal, reason := reason);
            Retryable(WeightedRR, o.kind, false) && !ShouldFailover(o)
  {
    RetriesBeyondFailover(ZERO_OUTCOME.(kind := UPSTREAM_TRANSIENT, scope := Terminal, reason := reason), false);
  }

  lemma ExpireNone(cooldown: Cooldowns, now: int)
    ensures Expire(cooldown, [], now) == cooldown
  {
  }

  lemma {:induction false} ListedAppend(accounts: seq<Account>, a: Account, id: int)
    ensures Listed(accounts + [a], id) <==> Listed(accounts, id) || a.id == id
    decreases |accounts|
  {
    if accounts != [] {
      assert (accounts + [a])[1..] == accounts[1..] + [a];
      ListedAppend(accounts[1..], a, id);
    }
  }

  lemma ExpireOne(was: Cooldowns, accounts: seq<Account>, a: Account, now: int)
    ensures var c := Expire(was, accounts, now);
            && (Cooling(c, a.id, now) <==> Cooling(was, a.id, now))
            && Expire(was, accounts + [a], now) == if Cooling(was, a.id, now) then c else c - {a.id}
  {
    forall id {
      ListedAppend(accounts, a, id);
    }
  }

  /** Only accounts that are not cooling have slots, and without any slot all of them are cooling. */
  lemma {:induction false} SlotsAreRested(accounts: seq<Account>, cooldown: Cooldowns, now: int)
    ensures var slots := Slots(accounts, cooldown, now);
            && (forall k :: 0 <= k < |slots| ==> slots[k] in accounts && !Cooling(cooldown, slots[k].id, now))
            && (slots == [] ==> forall k :: 0 <= k < |accounts| ==> Cooling(cooldown, accounts[k].id, now))
    decreases |accounts|
  {
    if accounts != [] {
      SlotsAreRested(accounts[..|accounts| - 1], cooldown, now);
    }
  }
}
