/** A vesting balance object, with the policy that it updates in place. */
module VestingBalances {
  import opened Assets
  import opened Vesting

  class VestingBalanceObject {
    const asset: AssetId
    const period: Seconds
    var balance: nat
    var coinSecondsEarned: nat
    var lastUpdate: nat

    function State(): VestingBalance
      reads this
    {
      VestingBalance(balance, asset, period, coinSecondsEarned, lastUpdate)
    }

    constructor (balance: nat, asset: AssetId, period: Seconds, now: nat)
      ensures State() == VestingBalance(balance, asset, period, 0, now)
    {
      this.balance, this.asset, this.period, coinSecondsEarned, lastUpdate := balance, asset, period, 0, now;
    }

    method UpdateCoinSecondsEarned(now: nat)
      requires lastUpdate <= now
      modifies this
      ensures State() == Updated(old(State()), now)
    {
      coinSecondsEarned := EarnedAt(State(), now);
      lastUpdate := now;
    }

    method Deposit(now: nat, amount: nat)
      requires lastUpdate <= now
      modifies this
      ensures State() == Deposited(old(State()), now, amount)
      ensures balance == old(balance) + amount && coinSecondsEarned == EarnedAt(old(State()), now) && lastUpdate == now
    {
      UpdateCoinSecondsEarned(now);
      balance := balance + amount;
    }

    /** For an amount that is allowed the assertions of the withdrawal hold. */
    method Withdraw(now: nat, amount: nat)
      requires lastUpdate <= now && IsWithdrawAllowed(State(), now, amount, asset)
      modifies this
      ensures CanPay(old(State()), now, amount)
      ensures State() == Withdrawn(old(State()), now, amount)
      ensures balance == old(balance) - amount && lastUpdate == now
      ensures coinSecondsEarned == EarnedAt(old(State()), now) - amount * period
    {
      AllowedMeansPaid(State(), now, amount);
      assert amount <= balance;
      UpdateCoinSecondsEarned(now);
      var needed := amount * period;
      assert needed <= coinSecondsEarned;
      coinSecondsEarned := coinSecondsEarned - needed;
      balance := balance - amount;
    }
  }
}
