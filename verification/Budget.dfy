/** Run budgets: calls are reserved before they are made and settled afterwards, possibly by many workers at once. */
module Budgets {
  import opened Collections

  /** Costs are integers in the smallest unit of money. */
  datatype Limits = Limits(maxCalls: Option<int>, maxTokens: Option<int>, maxCost: Option<int>)

  datatype Account = Account(calls: nat, reserved: nat, tokens: int, cost: int)

  datatype Exhausted = CallBudget | TokenBudget | CostBudget

  datatype Usage = Usage(tokens: int, cost: int)

  const NO_USAGE := Account(0, 0, 0, 0)

  /** Why a reservation is refused, checked in this order. */
  function Refusal(limits: Limits, a: Account): Option<Exhausted> {
    if limits.maxCalls.Some? && a.calls + a.reserved >= limits.maxCalls.value then Some(CallBudget)
    else if limits.maxTokens.Some? && a.tokens >= limits.maxTokens.value then Some(TokenBudget)
    else if limits.maxCost.Some? && a.cost >= limits.maxCost.value then Some(CostBudget)
    else None
  }

  function Reserved(a: Account): Account {
    a.(reserved := a.reserved + 1)
  }

  function SettledCall(a: Account, usage: Option<Usage>): Account {
    Account(a.calls + 1,
            if a.reserved == 0 then 0 else a.reserved - 1,
            a.tokens + (if usage.Some? then usage.value.tokens else 0),
            a.cost + (if usage.Some? then usage.value.cost else 0))
  }

  class BudgetManager {
    const limits: Limits
    var calls: nat
    var reserved: nat
    var tokens: int
    var cost: int

    ghost function View(): Account
      reads this
    {
      Account(calls, reserved, tokens, cost)
    }

    constructor (limits: Limits)
      ensures this.limits == limits && View() == NO_USAGE
    {
      this.limits := limits;
      calls, reserved, tokens, cost := 0, 0, 0, 0;
    }

    /** Claims one call, unless some limit is already used up. */
    method Reserve() returns (refusal: Option<Exhausted>)
      modifies this`reserved
      ensures refusal == Refusal(limits, old(View()))
      ensures View() == if refusal.None? then Reserved(old(View())) else old(View())
    {
      if limits.maxCalls.Some? && calls + reserved >= limits.maxCalls.value {
        return Some(CallBudget);
      }
      if limits.maxTokens.Some? && tokens >= limits.maxTokens.value {
        return Some(TokenBudget);
      }
      if limits.maxCost.Some? && cost >= limits.maxCost.value {
        return Some(CostBudget);
      }
      reserved := reserved + 1;
      return None;
    }

    /** Accounts one finished call; a settle without a reservation leaves the reservations at zero. */
    method Settle(usage: Option<Usage>)
      modifies this`calls, this`reserved, this`tokens, this`cost
      ensures View() == SettledCall(old(View()), usage)
    {
      calls := calls + 1;
      reserved := if reserved - 1 > 0 then reserved - 1 else 0;
      if usage.Some? {
        tokens := tokens + usage.value.tokens;
        cost := cost + usage.value.cost;
      }
    }
  }

  // ----- interleavings of workers

  /** One atomic section of some worker. */
  datatype Event = Reserve(worker: nat) | Settle(worker: nat, usage: Option<Usage>)

  datatype Ledger = Ledger(account: Account, inFlight: set<nat>)

  /** Matched use: a worker reserves before its call and settles after it; a refused worker makes no call. */
  predicate Can(l: Ledger, e: Event) {
    match e
    case Reserve(w) => w !in l.inFlight
    case Settle(w, _) => w in l.inFlight
  }

  function Step(limits: Limits, l: Ledger, e: Event): Ledger {
    match e
    case Reserve(w) =>
      if Refusal(limits, l.account).Some? then l else Ledger(Reserved(l.account), l.inFlight + {w})
    case Settle(w, usage) => Ledger(SettledCall(l.account, usage), l.inFlight - {w})
  }

  function RunEvents(limits: Limits, events: seq<Event>): Option<Ledger> {
    if events == [] then Some(Ledger(NO_USAGE, {}))
    else
      var last := |events| - 1;
      var before := RunEvents(limits, events[..last]);
      if before.Some? && Can(before.value, events[last]) then Some(Step(limits, before.value, events[last])) else None
  }

  /** In matched use the reservations are exactly the calls in flight. */
  lemma {:induction false} ReservationsMatch(limits: Limits, events: seq<Event>)
    requires RunEvents(limits, events).Some?
    ensures RunEvents(limits, events).value.account.reserved == |RunEvents(limits, events).value.inFlight|
  {
    if events != [] {
      ReservationsMatch(limits, events[..|events| - 1]);
    }
  }

  /** The call limit is never exceeded, not even by calls in flight. */
  lemma {:induction false} CallsWithinLimit(limits: Limits, events: seq<Event>)
    requires RunEvents(limits, events).Some? && limits.maxCalls.Some? && limits.maxCalls.value >= 0
    ensures var a := RunEvents(limits, events).value.account; a.calls + a.reserved <= limits.maxCalls.value
  {
    if events != [] {
      var front := events[..|events| - 1];
      CallsWithinLimit(limits, front);
      ReservationsMatch(limits, front);
    }
  }

  datatype Resource = Tokens | Cost

  function Spent(a: Account, what: Resource): int {
    if what.Tokens? then a.tokens else a.cost
  }

  function LimitOn(limits: Limits, what: Resource): Option<int> {
    if what.Tokens? then limits.maxTokens else limits.maxCost
  }

  function Billed(usage: Option<Usage>, what: Resource): int {
    if usage.None? then 0 else if what.Tokens? then usage.value.tokens else usage.value.cost
  }

  /** Every call bills at most `most` of the resource. */
  ghost predicate BillsAtMost(events: seq<Event>, what: Resource, most: nat) {
    forall i :: 0 <= i < |events| && events[i].Settle? ==> Billed(events[i].usage, what) <= most
  }

  /** At no point are more than `k` calls in flight. */
  ghost predicate AtMostInFlight(limits: Limits, events: seq<Event>, k: nat) {
    forall n :: 0 <= n <= |events| && RunEvents(limits, events[..n]).Some? ==>
        |RunEvents(limits, events[..n]).value.inFlight| <= k
  }

  lemma InFlightNow(limits: Limits, events: seq<Event>, k: nat)
    requires AtMostInFlight(limits, events, k) && RunEvents(limits, events).Some?
    ensures |RunEvents(limits, events).value.inFlight| <= k
  {
    assert events[..|events|] == events;
  }

  lemma InFlightBefore(limits: Limits, events: seq<Event>, k: nat)
    requires AtMostInFlight(limits, events, k) && events != []
    ensures AtMostInFlight(limits, events[..|events| - 1], k)
  {
    hide RunEvents;
    var front := events[..|events| - 1];
    forall n | 0 <= n <= |front| && RunEvents(limits, front[..n]).Some?
      ensures |RunEvents(limits, front[..n]).value.inFlight| <= k
    {
      assert front[..n] == events[..n];
    }
  }

  /** The most that a number of calls can bill. */
  function Exposure(most: nat, callCount: nat): nat {
    most * callCount
  }

  lemma ExposureGrows(most: nat, a: nat, b: nat)
    requires a <= b
    ensures Exposure(most, a) <= Exposure(most, b)
  {
    assert most * b == most * a + most * (b - a);
  }

  lemma ExposureStep(most: nat, n: nat)
    ensures Exposure(most, n + 1) == Exposure(most, n) + most
  {
  }

  /** What has been billed, plus what the calls in flight may still bill, stays below the limit plus `k` calls. */
  ghost predicate WithinRound(limit: int, spent: int, most: nat, reserved: nat, k: nat) {
    spent + Exposure(most, reserved) <= limit - 1 + Exposure(most, k)
  }

  lemma ReserveWithin(limit: int, spent: int, most: nat, reserved: nat, k: nat)
    requires spent < limit && reserved <= k
    ensures WithinRound(limit, spent, most, reserved, k)
  {
    hide Exposure;
    ExposureGrows(most, reserved, k);
  }

  lemma SettleWithin(limit: int, spent: int, billed: int, most: nat, reserved: nat, k: nat)
    requires WithinRound(limit, spent, most, reserved + 1, k) && billed <= most
    ensures WithinRound(limit, spent + billed, most, reserved, k)
  {
    hide Exposure;
    ExposureStep(most, reserved);
  }

  lemma StepWithin(limits: Limits, l: Ledger, e: Event, what: Resource, most: nat, k: nat)
    requires Can(l, e) && l.account.reserved == |l.inFlight| && LimitOn(limits, what).Some?
    requires WithinRound(LimitOn(limits, what).value, Spent(l.account, what), most, l.account.reserved, k)
    requires Step(limits, l, e).account.reserved <= k && (e.Settle? ==> Billed(e.usage, what) <= most)
    ensures var a := Step(limits, l, e).account;
            WithinRound(LimitOn(limits, what).value, Spent(a, what), most, a.reserved, k)
  {
    hide WithinRound;
    var limit, before, after := LimitOn(limits, what).value, l.account, Step(limits, l, e).account;
    match e
    case Reserve(w) =>
      if Refusal(limits, before).None? {
        ReserveWithin(limit, Spent(before, what), most, after.reserved, k);
      }
    case Settle(w, usage) =>
      assert l.inFlight != {};
      SettleWithin(limit, Spent(before, what), Billed(usage, what), most, after.reserved, k);
  }

  lemma RunUnfolds(limits: Limits, events: seq<Event>)
    requires RunEvents(limits, events).Some? && events != []
    ensures var before := RunEvents(limits, events[..|events| - 1]);
            && before.Some? && Can(before.value, events[|events| - 1])
            && RunEvents(limits, events).value == Step(limits, before.value, events[|events| - 1])
  {
  }

  /**
   * A token or cost limit can only be overshot by calls in flight: with at most `k` of them, each
   * billing at most `most`, spending stays below the limit plus one full round of calls.
   */
  lemma {:induction false} SpendingWithinRound(limits: Limits, events: seq<Event>, what: Resource, most: nat, k: nat)
    requires RunEvents(limits, events).Some? && LimitOn(limits, what).Some? && LimitOn(limits, what).value >= 1
    requires BillsAtMost(events, what, most) && AtMostInFlight(limits, events, k)
    ensures var a := RunEvents(limits, events).value.account;
            WithinRound(LimitOn(limits, what).value, Spent(a, what), most, a.reserved, k)
  {
    if events == [] {
      ReserveWithin(LimitOn(limits, what).value, 0, most, 0, k);
    } else {
      hide WithinRound, AtMostInFlight, RunEvents, Step, Can, Billed;
      var front, e := events[..|events| - 1], events[|events| - 1];
      RunUnfolds(limits, events);
      InFlightNow(limits, events, k);
      ReservationsMatch(limits, events);
      InFlightBefore(limits, events, k);
      SpendingWithinRound(limits, front, what, most, k);
      ReservationsMatch(limits, front);
      StepWithin(limits, RunEvents(limits, front).value, e, what, most, k);
    }
  }

  // ----- what is granted

  /** Calls finished over a history. */
  function Finished(events: seq<Event>): nat {
    if events == [] then 0
    else Finished(events[..|events| - 1]) + (if events[|events| - 1].Settle? then 1 else 0)
  }

  /** All that the finished calls billed. */
  function TotalBilled(events: seq<Event>, what: Resource): int {
    if events == [] then 0
    else
      var e := events[|events| - 1];
      TotalBilled(events[..|events| - 1], what) + (if e.Settle? then Billed(e.usage, what) else 0)
  }

  /** The account is the history's: calls finished, and everything they billed. */
  lemma {:induction false} AccountIsHistory(limits: Limits, events: seq<Event>)
    requires RunEvents(limits, events).Some?
    ensures var a := RunEvents(limits, events).value.account;
            && a.calls == Finished(events)
            && a.tokens == TotalBilled(events, Tokens) && a.cost == TotalBilled(events, Cost)
  {
    if events != [] {
      AccountIsHistory(limits, events[..|events| - 1]);
    }
  }

  ghost predicate Below(limit: Option<int>, amount: int) {
    limit.Some? ==> amount < limit.value
  }

  /**
   * Exactly when a call is granted, on the history: while the calls finished and in flight, the tokens
   * and the cost are all below their limits. A refusal names the first limit that is used up.
   */
  lemma GrantedIff(limits: Limits, events: seq<Event>, w: nat)
    requires RunEvents(limits, events).Some? && w !in RunEvents(limits, events).value.inFlight
    ensures var before, after := RunEvents(limits, events).value, RunEvents(limits, events + [Reserve(w)]);
            var callsLeft := Below(limits.maxCalls, Finished(events) + |before.inFlight|);
            var tokensLeft := Below(limits.maxTokens, TotalBilled(events, Tokens));
            var costLeft := Below(limits.maxCost, TotalBilled(events, Cost));
            && after.Some?
            && after.value.inFlight
               == before.inFlight + (if callsLeft && tokensLeft && costLeft then {w} else {})
            && (Refusal(limits, before.account) == Some(CallBudget) <==> !callsLeft)
            && (Refusal(limits, before.account) == Some(TokenBudget) <==> callsLeft && !tokensLeft)
            && (Refusal(limits, before.account) == Some(CostBudget) <==> callsLeft && tokensLeft && !costLeft)
  {
    hide RunEvents, Finished, TotalBilled;
    RunAppended(limits, events, Reserve(w));
    AccountIsHistory(limits, events);
    ReservationsMatch(limits, events);
  }

  lemma RunAppended(limits: Limits, events: seq<Event>, e: Event)
    requires RunEvents(limits, events).Some? && Can(RunEvents(limits, events).value, e)
    ensures RunEvents(limits, events + [e]) == Some(Step(limits, RunEvents(limits, events).value, e))
  {
    hide Step;
    assert (events + [e])[..|events|] == events;
  }
}
