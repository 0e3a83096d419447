/** The core asset's books at maintenance, and how they are updated. */
module BudgetDatabase {
  import opened Budget
  import opened Counting

  class CoreAsset {
    const maxSupply: int
    var supply: int
    var fees: nat
    var workers: seq<Worker>
    var witnessBudget: nat
    var lastBudget: nat
    var witnessIncome: nat

    function State(): Treasury
      reads this
    {
      Treasury(maxSupply, supply, fees, workers, witnessBudget, lastBudget, witnessIncome)
    }

    constructor (maxSupply: int, supply: int, workers: seq<Worker>)
      ensures State() == Treasury(maxSupply, supply, 0, workers, 0, 0, 0)
    {
      this.maxSupply, this.supply, fees, this.workers := maxSupply, supply, 0, workers;
      witnessBudget, lastBudget, witnessIncome := 0, 0, 0;
    }

    method PayWorker(k: nat, pay: nat)
      requires k < |workers|
      modifies `supply, `workers
      ensures State() == Paid(old(State()), k, pay)
    {
      var w := workers[k];
      match w.payee {
        case Refund(burned) =>
          workers := workers[k := w.(payee := Refund(burned + pay))];
          supply := supply - pay;
        case Vesting(balance) =>
          workers := workers[k := w.(payee := Vesting(balance + pay))];
      }
    }

    /** The active workers with stake behind them, as they are indexed. */
    method ActiveWorkers(now: nat) returns (active: seq<nat>)
      ensures forall i :: 0 <= i < |active| ==> active[i] < |workers| && workers[active[i]].IsPaid(now)
      ensures forall i, j :: 0 <= i < j < |active| ==> active[i] < active[j]
      ensures forall i :: 0 <= i < |workers| && workers[i].IsPaid(now) ==> i in active
    {
      active := [];
      for k: nat := 0 to |workers|
        invariant forall i :: 0 <= i < |active| ==> active[i] < k && workers[active[i]].IsPaid(now)
        invariant forall i, j :: 0 <= i < j < |active| ==> active[i] < active[j]
        invariant forall i :: 0 <= i < k && workers[i].IsPaid(now) ==> i in active
      {
        if workers[k].IsPaid(now) { active := active + [k]; }
      }
    }

    /** The active workers, sorted by the stake behind them. */
    method PayOrder(now: nat) returns (order: seq<nat>)
      ensures IsPayOrder(workers, now, order)
    {
      var active := ActiveWorkers(now);
      var all := workers;
      var more := (a: nat, b: nat) => a < |all| && b < |all| && all[a].stake > all[b].stake;
      AllInMultiset(active, |all|);
      order := Sort<nat>(active, more);
      SortedIsPayOrder(workers, now, active, order);
    }

    /** Pays the workers in order, as far as the budget goes. */
    method PayWorkers(budget: nat, now: nat) returns (left: nat, order: seq<nat>)
      modifies `supply, `workers
      ensures IsPayOrder(old(workers), now, order)
      ensures (State(), left) == Budget.PayWorkers(old(State()), order, budget, Elapsed(old(State()), now))
    {
      hide IsPayOrder, Requested;
      order := PayOrder(now);
      OrderedAreWorkers(workers, now, order);
      left := budget;
      var i := 0;
      var dt := Elapsed(State(), now);
      assert order[0..] == order;
      while i < |order| && left > 0
        invariant 0 <= i <= |order| && |workers| == |old(workers)| && unchanged(`lastBudget)
        invariant Budget.PayWorkers(old(State()), order, budget, dt) == Budget.PayWorkers(State(), order[i..], left, dt)
      {
        var pay := Min(left, Requested(workers[order[i]], dt));
        assert order[i..][1..] == order[i + 1..];
        PayWorker(order[i], pay);
        left := left - pay;
        i := i + 1;
      }
    }

    /** Sets the budget of an interval, pays the workers out of it, and issues what was paid. */
    method ProcessBudget(params: Params, now: nat, time: nat) returns (order: seq<nat>)
      requires supply <= maxSupply && params.blockInterval > 0 && time > 0
      modifies this
      ensures IsPayOrder(old(workers), now, order)
      ensures State() == Process(old(State()), params, now, time, order)
      ensures supply <= maxSupply
    {
      hide MaxBudget;
      var forWitnesses := WitnessBudget(State(), params, now, time);
      var forWorkers := WorkerBudget(State(), params, now, time);
      var left;
      left, order := PayWorkers(forWorkers, now);
      SupplyIsCapped(old(State()), params, now, time, order);
      supply := supply + forWitnesses + forWorkers - left - fees;
      fees := 0;
      witnessBudget, lastBudget := forWitnesses, now;
    }

    /** Pays the witness of a block. */
    method UpdateSigningWitness(payPerBlock: nat)
      modifies `witnessBudget, `witnessIncome
      ensures State() == Signed(old(State()), payPerBlock)
    {
      var pay := Min(payPerBlock, witnessBudget);
      witnessBudget := witnessBudget - pay;
      witnessIncome := witnessIncome + pay;
    }
  }

  lemma OrderedAreWorkers(workers: seq<Worker>, now: nat, order: seq<nat>)
    requires IsPayOrder(workers, now, order)
    ensures forall i :: 0 <= i < |order| ==> order[i] < |workers|
  {
  }

  lemma AllInMultiset(s: seq<nat>, n: nat)
    requires forall i :: 0 <= i < |s| ==> s[i] < n
    ensures forall k :: k in multiset(s) ==> k < n
  {
  }

  lemma SortedIsPayOrder(workers: seq<Worker>, now: nat, active: seq<nat>, order: seq<nat>)
    requires forall i :: 0 <= i < |active| ==> active[i] < |workers| && workers[active[i]].IsPaid(now)
    requires forall i, j :: 0 <= i < j < |active| ==> active[i] < active[j]
    requires forall i :: 0 <= i < |workers| && workers[i].IsPaid(now) ==> i in active
    requires multiset(order) == multiset(active)
    requires forall i, j :: 0 <= i < j < |order| && order[i] < |workers| && order[j] < |workers| ==>
               workers[order[j]].stake <= workers[order[i]].stake
    ensures IsPayOrder(workers, now, order)
  {
    SortedKeeps(active, order);
    forall i | 0 <= i < |order|
      ensures order[i] < |workers| && workers[order[i]].IsPaid(now)
    {
      assert order[i] in active;
    }
  }

  lemma SortedKeeps(s: seq<nat>, r: seq<nat>)
    requires multiset(r) == multiset(s) && forall i, j :: 0 <= i < j < |s| ==> s[i] < s[j]
    ensures forall k :: k in r <==> k in s
    ensures forall i, j :: 0 <= i < j < |r| ==> r[i] != r[j]
  {
    forall k: nat
      ensures k in r <==> k in s
    {
      assert k in r <==> k in multiset(r);
    }
    forall i, j | 0 <= i < j < |r|
      ensures r[i] != r[j]
    {
      if r[i] == r[j] {
        TwiceInMultiset(r, i, j);
        OnceInMultiset(s, r[i]);
      }
    }
  }

  lemma TwiceInMultiset(r: seq<nat>, i: nat, j: nat)
    requires i < j < |r| && r[i] == r[j]
    ensures multiset(r)[r[i]] >= 2
  {
    assert r == r[..j] + r[j..];
    assert r[i] == r[..j][i] && r[j] == r[j..][0];
    assert multiset(r) == multiset(r[..j]) + multiset(r[j..]);
  }

  lemma {:induction false} OnceInMultiset(s: seq<nat>, k: nat)
    requires forall i, j :: 0 <= i < j < |s| ==> s[i] < s[j]
    ensures multiset(s)[k] <= 1
  {
    if s == [] {
    } else {
      OnceInMultiset(s[1..], k);
      assert s == [s[0]] + s[1..];
      assert k == s[0] ==> k !in s[1..];
    }
  }
}
