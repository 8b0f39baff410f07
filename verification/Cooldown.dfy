/** Cooldown safety: whatever else happens, a cooled account is only picked when nothing is left. */
module Cooldown {
  import opened Bytes
  import opened AccountStore
  import opened Scheduler

  datatype Sched = Sched(policy: Policy, cooldown: Cooldowns, counter: nat, pinnedID: int)

  /** What may happen to a scheduler, with the account list and the time of each selection. */
  datatype Event =
    | Selecting(accounts: seq<Account>, now: int)
    | Reporting(id: int, kind: int, retryAfter: int, now: int)
    | Switching(policy: Policy)
    | Pinning(id: int)

  function Step(s: Sched, e: Event): Sched {
    match e
    case Selecting(accounts, now) =>
      if s.policy.Direct? then s
      else s.(cooldown := Expire(s.cooldown, accounts, now),
              counter := CounterAfter(accounts, s.cooldown, s.counter, now))
    case Reporting(id, kind, retryAfter, now) =>
      if s.policy.Direct? then s else s.(cooldown := Reported(s.cooldown, id, kind, retryAfter, now))
    case Switching(policy) => s.(policy := policy)
    case Pinning(id) => s.(pinnedID := id)
  }

  function Run(s: Sched, events: seq<Event>): Sched {
    if events == [] then s else Step(Run(s, events[..|events| - 1]), events[|events| - 1])
  }

  /** What a scheduler holds. */
  ghost function HeldBy(s: Scheduler): Sched
    reads s
  {
    Sched(s.policy, s.cooldown, s.counter, s.pinnedID)
  }

  method Handle(s: Scheduler, e: Event)
    requires s.Valid()
    modifies s, s.store
    ensures s.Valid() && HeldBy(s) == Step(old(HeldBy(s)), e)
    ensures e.Selecting? && s.policy.WeightedRR? ==> s.store.accounts == e.accounts
  {
    match e
    case Selecting(accounts, now) =>
      s.store.accounts := accounts;
      var _ := s.Select(now, []);
    case Reporting(id, kind, retryAfter, now) => s.ReportResult(id, kind, retryAfter, now);
    case Switching(policy) => s.SetPolicy(policy);
    case Pinning(id) => s.SetPinned(id);
  }

  /** The scheduler itself goes through these states, whatever lists its selections find. */
  method HandleAll(s: Scheduler, events: seq<Event>)
    requires s.Valid()
    modifies s, s.store
    ensures s.Valid() && HeldBy(s) == Run(old(HeldBy(s)), events)
  {
    for i := 0 to |events|
      invariant s.Valid() && HeldBy(s) == Run(old(HeldBy(s)), events[..i])
    {
      assert events[..i + 1][..i] == events[..i];
      Handle(s, events[i]);
    }
    assert events[..|events|] == events;
  }

  /** The clock, read by selections and reports, is at `time` before an event or stands there after. */
  function Clock(e: Event, time: int): int {
    if e.Selecting? || e.Reporting? then e.now else time
  }

  function ClockAfter(time: int, events: seq<Event>): int {
    if events == [] then time else Clock(events[|events| - 1], ClockAfter(time, events[..|events| - 1]))
  }

  /** The clock never goes back. */
  ghost predicate Forward(time: int, events: seq<Event>) {
    forall k :: 0 <= k < |events| ==> ClockAfter(time, events[..k]) <= Clock(events[k], ClockAfter(time, events[..k]))
  }

  ghost predicate Silent(events: seq<Event>, id: int) {
    forall k :: 0 <= k < |events| && events[k].Reporting? ==> events[k].id != id
  }

  /** A cooldown stays as it is until it runs out, or a report for the same account replaces it. */
  lemma {:induction false} CooldownLasts(s: Sched, id: int, until: int, time: int, events: seq<Event>)
    requires id in s.cooldown && s.cooldown[id] == until
    requires Forward(time, events) && Silent(events, id) && ClockAfter(time, events) < until
    ensures id in Run(s, events).cooldown && Run(s, events).cooldown[id] == until
  {
    if events != [] {
      var init, last := events[..|events| - 1], events[|events| - 1];
      assert forall k :: 0 <= k < |init| ==> init[..k] == events[..k];
      CooldownLasts(s, id, until, time, init);
      assert last == events[|init|];
    }
  }

  /** After a report cools an account until some time, no selection before that time returns it, over
      any run of selections, list changes, policy changes and reports for other accounts, unless
      every listed account is cooling; and then the first listed account is returned. */
  lemma {:induction false} CooledIsNotPicked(s: Sched, id: int, kind: int, retryAfter: int, time: int,
                                             events: seq<Event>, accounts: seq<Account>, now: int)
    requires s.policy.WeightedRR? && CoolingTime(kind, retryAfter).Some?
    requires Forward(time, events) && Silent(events, id) && ClockAfter(time, events) <= now
    requires now < time + CoolingTime(kind, retryAfter).value
    ensures var r := Run(Step(s, Reporting(id, kind, retryAfter, time)), events);
            var pick := PickRR(accounts, r.cooldown, r.counter, now);
            var exhausted := forall k :: 0 <= k < |accounts| ==> Cooling(r.cooldown, accounts[k].id, now);
            && (pick.Some? && pick.value.id == id ==> exhausted)
            && (accounts != [] ==> (exhausted <==> pick.Some? && Cooling(r.cooldown, pick.value.id, now)))
            && (exhausted && accounts != [] ==> pick == Some(accounts[0]))
  {
    var s1 := Step(s, Reporting(id, kind, retryAfter, time));
    CooldownLasts(s1, id, time + CoolingTime(kind, retryAfter).value, time, events);
    var r := Run(s1, events);
    SlotsAreRested(accounts, r.cooldown, now);
    assert Cooling(r.cooldown, id, now);
  }
}
