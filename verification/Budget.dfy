/**
 The budget of a maintenance interval: a share of what may still be issued goes to witnesses,
 block by block, and to workers, in the order of the stake behind them. Supply never exceeds
 its cap, and who is paid short comes before those who get nothing.
 */
module Budget {
  import opened Assets

  const CYCLE_RATE := 17
  const CYCLE_UNIT := 0x1_0000_0000
  const DAY := 86_400

  function Min(a: nat, b: nat): nat {
    if a <= b then a else b
  }

  /** What a worker does with its pay: burn it, or put it into a vesting balance. */
  datatype Payee = Refund(burned: nat) | Vesting(balance: nat)

  /** The stake is that for the worker, less that against. */
  datatype Worker = Worker(begins: nat, ends: nat, stake: int, dailyPay: nat, payee: Payee) {

    predicate IsPaid(now: nat) {
      begins <= now <= ends && stake > 0
    }
  }

  datatype Params = Params(blockInterval: nat, witnessPay: nat, workerPayPerDay: nat)

  datatype Treasury = Treasury(
    maxSupply: int, supply: int, fees: nat, workers: seq<Worker>, witnessBudget: nat, lastBudget: nat, witnessIncome: nat)

  /** What may still be issued, with the fees that are about to be burned. */
  function Reserve(t: Treasury): int {
    t.maxSupply - t.supply + t.fees
  }

  // ----- the budget -----

  function CycleShare(reserve: nat, dt: nat): nat {
    ProductIsNat(reserve, dt + 1);
    (reserve * dt * CYCLE_RATE + CYCLE_UNIT - 1) / CYCLE_UNIT
  }

  function MaxBudget(t: Treasury, now: nat): nat
    requires Reserve(t) >= 0
  {
    if t.lastBudget == 0 || now <= t.lastBudget then 0
    else
      var share := CycleShare(Reserve(t), now - t.lastBudget);
      if share < Reserve(t) then share else Reserve(t)
  }

  /** Some of a reserve can always be used, and never more than all of it. */
  lemma BudgetIsWithinReserve(t: Treasury, now: nat)
    requires Reserve(t) >= 0
    ensures 0 <= MaxBudget(t, now) <= Reserve(t)
    ensures MaxBudget(t, now) >= 1 <==> Reserve(t) > 0 && t.lastBudget != 0 && t.lastBudget < now
    ensures t.lastBudget != 0 && t.lastBudget < now && MaxBudget(t, now) < Reserve(t) ==>
              var share := Reserve(t) * (now - t.lastBudget) * CYCLE_RATE;
              share <= MaxBudget(t, now) * CYCLE_UNIT < share + CYCLE_UNIT
  {
  }

  // ----- paying the workers -----

  /** A day's pay for the time since the last budget. */
  function Requested(w: Worker, dt: nat): nat {
    if dt == DAY then w.dailyPay
    else
      ProductIsNat(w.dailyPay, dt + 1);
      w.dailyPay * dt / DAY
  }

  /** The exact part of a day's pay, rounded down; a whole day asks for a day's pay. */
  lemma RequestedIsShare(w: Worker, dt: nat)
    ensures Requested(w, dt) * DAY <= w.dailyPay * dt < (Requested(w, dt) + 1) * DAY
  {
    ProductIsNat(w.dailyPay, dt + 1);
    FloorBounds(w.dailyPay * dt, DAY);
  }

  /** The workers to be paid, by their positions, those with more stake first. */
  ghost predicate IsPayOrder(workers: seq<Worker>, now: nat, order: seq<nat>) {
    && (forall i :: 0 <= i < |order| ==> order[i] < |workers|)
    && (forall i, j :: 0 <= i < j < |order| ==> order[i] != order[j] && workers[order[i]].stake >= workers[order[j]].stake)
    && (forall k :: 0 <= k < |workers| ==>
          (k in order <==> workers[k].begins <= now && now <= workers[k].ends && workers[k].stake > 0))
  }

  function Paid(t: Treasury, k: nat, pay: nat): Treasury
    requires k < |t.workers|
  {
    var w := t.workers[k];
    match w.payee
    case Refund(burned) => t.(supply := t.supply - pay, workers := t.workers[k := w.(payee := Refund(burned + pay))])
    case Vesting(balance) => t.(workers := t.workers[k := w.(payee := Vesting(balance + pay))])
  }

  predicate AreWorkers(t: Treasury, order: seq<nat>) {
    forall i :: 0 <= i < |order| ==> order[i] < |t.workers|
  }

  /** The treasury after the workers were paid out of a budget, and what is left of that. */
  function PayWorkers(t: Treasury, order: seq<nat>, budget: nat, dt: nat): (Treasury, nat)
    requires AreWorkers(t, order)
    decreases |order|
  {
    if order == [] || budget == 0 then (t, budget)
    else
      var pay := Min(budget, Requested(t.workers[order[0]], dt));
      PayWorkers(Paid(t, order[0], pay), order[1..], budget - pay, dt)
  }

  /** What each of some requests gets out of a budget. */
  function Pays(requests: seq<nat>, budget: nat): (r: seq<nat>)
    ensures |r| == |requests|
  {
    if requests == [] then []
    else [Min(budget, requests[0])] + Pays(requests[1..], budget - Min(budget, requests[0]))
  }

  function Total(amounts: seq<nat>): nat {
    if amounts == [] then 0 else amounts[0] + Total(amounts[1..])
  }

  /** Whoever comes after one who is paid short gets nothing, and together they get all they ask for or all there is. */
  lemma {:induction false} PaysAreGreedy(requests: seq<nat>, budget: nat)
    ensures var pays := Pays(requests, budget);
            && (forall i, j :: 0 <= i < j < |pays| && pays[i] < requests[i] ==> pays[j] == 0)
            && (forall i :: 0 <= i < |pays| ==> pays[i] <= requests[i])
            && Total(pays) == Min(budget, Total(requests))
  {
    if requests == [] {
    } else {
      var rest := budget - Min(budget, requests[0]);
      PaysAreGreedy(requests[1..], rest);
      if rest == 0 { NothingToPay(requests[1..]); }
      var pays := Pays(requests, budget);
      forall i, j | 0 <= i < j < |pays| && pays[i] < requests[i]
        ensures pays[j] == 0
      {
        if i > 0 { assert pays[i] == Pays(requests[1..], rest)[i - 1]; }
        assert pays[j] == Pays(requests[1..], rest)[j - 1];
      }
      forall i | 0 <= i < |pays|
        ensures pays[i] <= requests[i]
      {
        if i > 0 { assert pays[i] == Pays(requests[1..], rest)[i - 1]; }
      }
    }
  }

  lemma {:induction false} NothingToPay(requests: seq<nat>)
    ensures forall i :: 0 <= i < |requests| ==> Pays(requests, 0)[i] == 0
    ensures Total(Pays(requests, 0)) == 0
  {
    if requests == [] {
    } else {
      NothingToPay(requests[1..]);
    }
  }

  function Requests(t: Treasury, order: seq<nat>, dt: nat): (r: seq<nat>)
    requires AreWorkers(t, order)
    ensures |r| == |order|
  {
    if order == [] then [] else [Requested(t.workers[order[0]], dt)] + Requests(t, order[1..], dt)
  }

  lemma {:induction false} RequestsByOrder(t: Treasury, order: seq<nat>, dt: nat)
    requires AreWorkers(t, order)
    ensures forall i :: 0 <= i < |order| ==> Requests(t, order, dt)[i] == Requested(t.workers[order[i]], dt)
  {
    if order == [] {
    } else {
      RequestsByOrder(t, order[1..], dt);
    }
  }

  function Received(before: Worker, after: Worker): int {
    match (before.payee, after.payee)
    case (Refund(b), Refund(a)) => a - b
    case (Vesting(b), Vesting(a)) => a - b
    case _ => 0
  }

  lemma {:induction false} RequestsStay(t: Treasury, u: Treasury, order: seq<nat>, dt: nat)
    requires |u.workers| == |t.workers| && AreWorkers(t, order)
    requires forall k :: 0 <= k < |t.workers| ==> u.workers[k].dailyPay == t.workers[k].dailyPay
    ensures Requests(u, order, dt) == Requests(t, order, dt)
  {
    if order == [] {
    } else {
      RequestsStay(t, u, order[1..], dt);
    }
  }

  /** Only what the worker gets changes about a worker, and whoever is not in the order gets nothing. */
  ghost predicate PaidInOrder(t: Treasury, order: seq<nat>, pays: seq<nat>, u: Treasury)
    requires |pays| == |order|
  {
    && |u.workers| == |t.workers|
    && u == t.(supply := u.supply, workers := u.workers)
    && (forall k :: 0 <= k < |t.workers| ==>
          && u.workers[k] == t.workers[k].(payee := u.workers[k].payee)
          && u.workers[k].payee.Refund? == t.workers[k].payee.Refund?)
    && (forall i :: 0 <= i < |order| && order[i] < |t.workers| ==> Received(t.workers[order[i]], u.workers[order[i]]) == pays[i])
    && (forall k :: 0 <= k < |t.workers| && k !in order ==> u.workers[k] == t.workers[k])
  }

  predicate Distinct(order: seq<nat>) {
    forall i, j :: 0 <= i < j < |order| ==> order[i] != order[j]
  }

  lemma {:induction false} WorkersGetTheirPay(t: Treasury, order: seq<nat>, budget: nat, dt: nat)
    requires Distinct(order) && AreWorkers(t, order)
    ensures var pays := Pays(Requests(t, order, dt), budget);
            var (u, left) := PayWorkers(t, order, budget, dt);
            PaidInOrder(t, order, pays, u) && left == budget - Total(pays)
    decreases |order|
  {
    hide PaidInOrder, Requested, Distinct, Paid;
    var requests := Requests(t, order, dt);
    if order == [] || budget == 0 {
      NothingToPay(requests);
      NobodyPaid(t, order, Pays(requests, budget));
    } else {
      var rest := order[1..];
      var pay := Min(budget, requests[0]);
      var t1 := Paid(t, order[0], pay);
      PaidKeepsPay(t, order[0], pay);
      DistinctRest(order);
      WorkersGetTheirPay(t1, rest, budget - pay, dt);
      RequestsStay(t, t1, rest, dt);
      assert requests[1..] == Requests(t, rest, dt);
      PaidFirst(t, order, pay, Pays(Requests(t, rest, dt), budget - pay), PayWorkers(t, order, budget, dt).0);
    }
  }

  lemma NobodyPaid(t: Treasury, order: seq<nat>, pays: seq<nat>)
    requires |pays| == |order| && forall i :: 0 <= i < |pays| ==> pays[i] == 0
    ensures PaidInOrder(t, order, pays, t)
  {
  }

  lemma PaidKeepsPay(t: Treasury, k: nat, pay: nat)
    requires k < |t.workers|
    ensures |Paid(t, k, pay).workers| == |t.workers|
    ensures forall i :: 0 <= i < |t.workers| ==> Paid(t, k, pay).workers[i].dailyPay == t.workers[i].dailyPay
  {
  }

  lemma DistinctRest(order: seq<nat>)
    requires Distinct(order) && order != []
    ensures Distinct(order[1..])
  {
  }

  lemma PaidFirst(t: Treasury, order: seq<nat>, pay: nat, pays: seq<nat>, u: Treasury)
    requires order != [] && Distinct(order) && order[0] < |t.workers| && |pays| == |order| - 1
    requires PaidInOrder(Paid(t, order[0], pay), order[1..], pays, u)
    ensures PaidInOrder(t, order, [pay] + pays, u)
  {
  }

  /** What of some pays is burned again. */
  function Burned(t: Treasury, order: seq<nat>, pays: seq<nat>): nat
    requires |pays| == |order| && AreWorkers(t, order)
  {
    if order == [] then 0
    else (if t.workers[order[0]].payee.Refund? then pays[0] else 0) + Burned(t, order[1..], pays[1..])
  }

  lemma {:induction false} BurnedIsPaid(t: Treasury, order: seq<nat>, pays: seq<nat>)
    requires |pays| == |order| && AreWorkers(t, order)
    ensures Burned(t, order, pays) <= Total(pays)
  {
    if order == [] {
    } else {
      BurnedIsPaid(t, order[1..], pays[1..]);
    }
  }

  lemma {:induction false} BurnedStays(t: Treasury, u: Treasury, order: seq<nat>, pays: seq<nat>)
    requires |pays| == |order| && AreWorkers(t, order) && |u.workers| == |t.workers|
    requires forall k :: 0 <= k < |t.workers| ==> u.workers[k].payee.Refund? == t.workers[k].payee.Refund?
    ensures Burned(u, order, pays) == Burned(t, order, pays)
  {
    if order == [] {
    } else {
      BurnedStays(t, u, order[1..], pays[1..]);
    }
  }

  lemma {:induction false} SupplyFallsByRefunds(t: Treasury, order: seq<nat>, budget: nat, dt: nat)
    requires AreWorkers(t, order)
    ensures var (u, left) := PayWorkers(t, order, budget, dt);
            var pays := Pays(Requests(t, order, dt), budget);
            u == t.(supply := t.supply - Burned(t, order, pays), workers := u.workers) && |u.workers| == |t.workers|
            && left == budget - Total(pays)
    decreases |order|
  {
    hide Requested;
    var requests := Requests(t, order, dt);
    if order == [] || budget == 0 {
      NothingToPay(requests);
      BurnedIsPaid(t, order, Pays(requests, budget));
    } else {
      var pay := Min(budget, requests[0]);
      var t1 := Paid(t, order[0], pay);
      PaidKeepsPay(t, order[0], pay);
      SupplyFallsByRefunds(t1, order[1..], budget - pay, dt);
      RequestsStay(t, t1, order[1..], dt);
      assert requests[1..] == Requests(t, order[1..], dt);
      var rest := Pays(requests[1..], budget - pay);
      BurnedStays(t, t1, order[1..], rest);
      assert Pays(requests, budget)[1..] == rest;
    }
  }

  /** All that is in the vesting balances of workers. */
  function Vested(workers: seq<Worker>): int {
    if workers == [] then 0
    else Vested(workers[..|workers| - 1]) + match workers[|workers| - 1].payee case Vesting(b) => b case Refund(_) => 0
  }

  lemma {:induction false} VestedAt(workers: seq<Worker>, k: nat, w: Worker)
    requires k < |workers|
    ensures Vested(workers[k := w]) == Vested(workers) + Vested([w]) - Vested([workers[k]])
  {
    var (n, all) := (|workers| - 1, workers[k := w]);
    assert [w][..0] == [] && [workers[k]][..0] == [];
    if k == n {
      assert all[..n] == workers[..n];
    } else {
      assert all[..n] == workers[..n][k := w];
      VestedAt(workers[..n], k, w);
    }
  }

  lemma PaidIsVested(t: Treasury, k: nat, pay: nat)
    requires k < |t.workers|
    ensures var u := Paid(t, k, pay); u.supply + pay == t.supply + Vested(u.workers) - Vested(t.workers)
  {
    var u := Paid(t, k, pay);
    VestedAt(t.workers, k, u.workers[k]);
    assert [u.workers[k]][..0] == [] && [t.workers[k]][..0] == [];
  }

  /** Of all that is paid, what does not go into vesting balances leaves the supply. */
  lemma {:induction false} PayIsVestedOrBurned(t: Treasury, order: seq<nat>, budget: nat, dt: nat)
    requires AreWorkers(t, order)
    ensures var (u, left) := PayWorkers(t, order, budget, dt);
            u.supply + budget - left == t.supply + Vested(u.workers) - Vested(t.workers)
    decreases |order|
  {
    hide Requested, Paid, Vested;
    if order == [] || budget == 0 {
    } else {
      var pay := Min(budget, Requested(t.workers[order[0]], dt));
      PaidIsVested(t, order[0], pay);
      PaidKeepsPay(t, order[0], pay);
      PayIsVestedOrBurned(Paid(t, order[0], pay), order[1..], budget - pay, dt);
    }
  }

  // ----- processing the budget -----

  function Blocks(time: nat, interval: nat): nat
    requires interval > 0
  {
    (time + interval - 1) / interval
  }

  function WitnessBudget(t: Treasury, params: Params, now: nat, time: nat): nat
    requires Reserve(t) >= 0 && params.blockInterval > 0
  {
    ProductIsNat(params.witnessPay, Blocks(time, params.blockInterval) + 1);
    Min(params.witnessPay * Blocks(time, params.blockInterval), MaxBudget(t, now))
  }

  function WorkerBudget(t: Treasury, params: Params, now: nat, time: nat): nat
    requires Reserve(t) >= 0 && params.blockInterval > 0
  {
    ProductIsNat(params.workerPayPerDay, time + 1);
    Min(params.workerPayPerDay * time / DAY, MaxBudget(t, now) - WitnessBudget(t, params, now, time))
  }

  function Elapsed(t: Treasury, now: nat): nat {
    if now > t.lastBudget then now - t.lastBudget else 0
  }

  /** `process_budget`, with the time to the next maintenance and the order in which workers are paid. */
  function Process(t: Treasury, params: Params, now: nat, time: nat, order: seq<nat>): Treasury
    requires Reserve(t) >= 0 && params.blockInterval > 0 && time > 0 && AreWorkers(t, order)
  {
    var forWitnesses := WitnessBudget(t, params, now, time);
    var forWorkers := WorkerBudget(t, params, now, time);
    var (u, left) := PayWorkers(t, order, forWorkers, Elapsed(t, now));
    u.(supply := u.supply + forWitnesses + forWorkers - left - u.fees, fees := 0, witnessBudget := forWitnesses, lastBudget := now)
  }

  /** The lesser of two amounts. */
  predicate IsLesser(n: int, a: int, b: int) {
    n <= a && n <= b && (n == a || n == b)
  }

  /**
   Witnesses get their pay for every block that begins until the next maintenance, as far as the budget goes, and workers
   get their share of a day's pay, rounded down, out of what is left of it.
   */
  lemma BudgetIsShared(t: Treasury, params: Params, now: nat, time: nat) returns (blocks: nat, share: nat)
    requires Reserve(t) >= 0 && params.blockInterval > 0
    ensures (blocks - 1) * params.blockInterval < time <= blocks * params.blockInterval || (time == 0 && blocks == 0)
    ensures share * DAY <= params.workerPayPerDay * time < (share + 1) * DAY
    ensures var forWitnesses := WitnessBudget(t, params, now, time);
            && IsLesser(forWitnesses, params.witnessPay * blocks, MaxBudget(t, now))
            && IsLesser(WorkerBudget(t, params, now, time), share, MaxBudget(t, now) - forWitnesses)
  {
    hide MaxBudget;
    blocks := Blocks(time, params.blockInterval);
    ProductIsNat(params.workerPayPerDay, time + 1);
    FloorBounds(params.workerPayPerDay * time, DAY);
    share := params.workerPayPerDay * time / DAY;
    FloorBounds(time + params.blockInterval - 1, params.blockInterval);
    ProductIsNat(params.witnessPay, blocks + 1);
    if time == 0 { BlocksOfNothing(params.blockInterval); }
  }

  lemma BlocksOfNothing(interval: nat)
    requires interval > 0
    ensures Blocks(0, interval) == 0
  {
    FloorBounds(interval - 1, interval);
    if Blocks(0, interval) > 0 { ProductGrows(1, Blocks(0, interval), interval); }
  }

  /**
   After maintenance the witness budget is what was set aside, every worker in order got its part of the worker budget
   for the time since the last one, no one else got anything, and fees are burned.
   */
  lemma {:induction false} BudgetIsProcessed(t: Treasury, params: Params, now: nat, time: nat, order: seq<nat>)
    requires Reserve(t) >= 0 && params.blockInterval > 0 && time > 0 && IsPayOrder(t.workers, now, order)
    ensures var u := Process(t, params, now, time, order);
            var dt := if now > t.lastBudget then now - t.lastBudget else 0;
            var pays := Pays(Requests(t, order, dt), WorkerBudget(t, params, now, time));
            && u.maxSupply == t.maxSupply && u.fees == 0 && u.witnessIncome == t.witnessIncome
            && u.lastBudget == now && u.witnessBudget == WitnessBudget(t, params, now, time)
            && |u.workers| == |t.workers|
            && (forall i :: 0 <= i < |order| ==> Received(t.workers[order[i]], u.workers[order[i]]) == pays[i])
            && (forall k :: 0 <= k < |t.workers| && k !in order ==> u.workers[k] == t.workers[k])
            && (forall k :: 0 <= k < |t.workers| ==> u.workers[k] == t.workers[k].(payee := u.workers[k].payee))
  {
    hide WitnessBudget, WorkerBudget, Requested;
    WorkersGetTheirPay(t, order, WorkerBudget(t, params, now, time), Elapsed(t, now));
    SupplyFallsByRefunds(t, order, WorkerBudget(t, params, now, time), Elapsed(t, now));
  }

  /**
   What maintenance issues, over the fees that it burns, is the witness budget and
   what workers have more in vesting balances.
   */
  lemma SupplyIsWhatIsIssued(t: Treasury, params: Params, now: nat, time: nat, order: seq<nat>)
    requires Reserve(t) >= 0 && params.blockInterval > 0 && time > 0 && AreWorkers(t, order)
    ensures var u := Process(t, params, now, time, order);
            u.supply == t.supply - t.fees + u.witnessBudget + Vested(u.workers) - Vested(t.workers)
  {
    hide WitnessBudget, WorkerBudget, PayWorkers, Vested;
    SupplyFallsByRefunds(t, order, WorkerBudget(t, params, now, time), Elapsed(t, now));
    PayIsVestedOrBurned(t, order, WorkerBudget(t, params, now, time), Elapsed(t, now));
  }

  /** Supply stays within its cap: what is issued are the witness budget and the pays that are not burned. */
  lemma {:induction false} SupplyIsCapped(t: Treasury, params: Params, now: nat, time: nat, order: seq<nat>)
    requires Reserve(t) >= 0 && params.blockInterval > 0 && time > 0 && AreWorkers(t, order)
    ensures var u := Process(t, params, now, time, order);
            var pays := Pays(Requests(t, order, Elapsed(t, now)), WorkerBudget(t, params, now, time));
            && u.maxSupply == t.maxSupply && u.fees == 0
            && u.supply == t.supply - t.fees + u.witnessBudget + Total(pays) - Burned(t, order, pays)
            && t.supply - t.fees <= u.supply <= t.supply - t.fees + MaxBudget(t, now) <= t.maxSupply
  {
    hide MaxBudget, PayWorkers, Requested;
    BudgetIsWithinReserve(t, now);
    var forWorkers := WorkerBudget(t, params, now, time);
    var requests := Requests(t, order, Elapsed(t, now));
    SupplyFallsByRefunds(t, order, forWorkers, Elapsed(t, now));
    BurnedIsPaid(t, order, Pays(requests, forWorkers));
    PaysAreGreedy(requests, forWorkers);
  }

  // ----- paying the witnesses -----

  function Signed(t: Treasury, witnessPay: nat): Treasury {
    var pay := Min(witnessPay, t.witnessBudget);
    t.(witnessBudget := t.witnessBudget - pay, witnessIncome := t.witnessIncome + pay)
  }

  function SignedAll(t: Treasury, pays: seq<nat>): Treasury
    decreases |pays|
  {
    if pays == [] then t else SignedAll(Signed(t, pays[0]), pays[1..])
  }

  /** However many blocks are signed, the witnesses get all they are due, or all of the budget. */
  lemma {:induction false} WitnessesShareTheBudget(t: Treasury, pays: seq<nat>)
    ensures var paid := Min(t.witnessBudget, Total(pays));
            SignedAll(t, pays) == t.(witnessBudget := t.witnessBudget - paid, witnessIncome := t.witnessIncome + paid)
    decreases |pays|
  {
    if pays == [] {
    } else {
      WitnessesShareTheBudget(Signed(t, pays[0]), pays[1..]);
    }
  }

  // ----- runs -----

  datatype Event =
    | Maintenance(now: nat, time: nat, params: Params, order: seq<nat>)
    | Block(witnessPay: nat)
    | FeesPaid(amount: nat)

  ghost predicate CanHappen(t: Treasury, e: Event) {
    e.Maintenance? ==> e.params.blockInterval > 0 && e.time > 0 && IsPayOrder(t.workers, e.now, e.order)
  }

  ghost function Next(t: Treasury, e: Event): Treasury
    requires t.supply <= t.maxSupply && CanHappen(t, e)
  {
    match e
    case Maintenance(now, time, params, order) => Process(t, params, now, time, order)
    case Block(pay) => Signed(t, pay)
    case FeesPaid(amount) => t.(fees := t.fees + amount)
  }

  ghost predicate IsRun(states: seq<Treasury>, events: seq<Event>) {
    && |states| == |events| + 1
    && forall i :: 0 <= i < |events| ==>
         states[i].supply <= states[i].maxSupply ==> CanHappen(states[i], events[i]) && states[i + 1] == Next(states[i], events[i])
  }

  lemma RunStep(states: seq<Treasury>, events: seq<Event>, i: nat)
    requires IsRun(states, events) && i < |events| && states[i].supply <= states[i].maxSupply
    ensures CanHappen(states[i], events[i]) && states[i + 1] == Next(states[i], events[i])
  {
  }

  /** On every run that starts within the cap, supply stays within it. */
  lemma {:induction false} SupplyStaysCapped(states: seq<Treasury>, events: seq<Event>, n: nat)
    requires IsRun(states, events) && states[0].supply <= states[0].maxSupply && n <= |events|
    ensures states[n].supply <= states[n].maxSupply == states[0].maxSupply
  {
    hide Process, Requested;
    if n == 0 {
    } else {
      SupplyStaysCapped(states, events, n - 1);
      var (t, e) := (states[n - 1], events[n - 1]);
      RunStep(states, events, n - 1);
      if e.Maintenance? { SupplyIsCapped(t, e.params, e.now, e.time, e.order); }
    }
  }
}
