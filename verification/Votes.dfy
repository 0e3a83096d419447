/**
 Counting votes: every account's stake goes to the witness count it asks for, and the scan of
 the histogram finds the least count that more than half of the stake asks for at most.
 */
module Votes {
  import opened Wrappers

  /** The opinions of the voting account, unless that is account zero, stand for the account's own. */
  datatype Account = Account(prime: bool, votingAccount: nat, numWitness: nat, numCommittee: nat, votes: set<nat>, stake: nat)

  /** What accounts ask for a number of. */
  datatype Role = Witness | Committee

  ghost predicate Resolved(accounts: seq<Account>) {
    forall k :: 0 <= k < |accounts| ==> accounts[k].votingAccount < |accounts|
  }

  function Opinion(accounts: seq<Account>, k: nat): Account
    requires k < |accounts| && accounts[k].votingAccount < |accounts|
  {
    if accounts[k].votingAccount == 0 then accounts[k] else accounts[accounts[k].votingAccount]
  }

  function Asked(opinion: Account, role: Role): nat {
    if role.Witness? then opinion.numWitness else opinion.numCommittee
  }

  predicate IsCounted(accounts: seq<Account>, nonPrime: bool, k: nat)
    requires k < |accounts|
  {
    nonPrime || accounts[k].prime
  }

  /** Votes for more than the maximum are not counted. */
  predicate Asks(accounts: seq<Account>, nonPrime: bool, role: Role, max: nat, k: nat)
    requires k < |accounts| && accounts[k].votingAccount < |accounts|
  {
    IsCounted(accounts, nonPrime, k) && Asked(Opinion(accounts, k), role) <= max
  }

  /** The stake of those of the first `n` accounts that have a property. */
  function StakeOf(accounts: seq<Account>, n: nat, p: nat -> bool): nat
    requires n <= |accounts|
  {
    if n == 0 then 0 else StakeOf(accounts, n - 1, p) + if p(n - 1) then accounts[n - 1].stake else 0
  }

  function VotesFn(accounts: seq<Account>, nonPrime: bool): nat -> bool {
    (k: nat) => k < |accounts| && IsCounted(accounts, nonPrime, k)
  }

  /** Asks for exactly, or at most, this entry of the histogram. */
  function AsksFn(accounts: seq<Account>, nonPrime: bool, role: Role, max: nat, offset: nat): nat -> bool {
    (k: nat) => k < |accounts| && accounts[k].votingAccount < |accounts| && Asks(accounts, nonPrime, role, max, k)
                && Asked(Opinion(accounts, k), role) / 2 == offset
  }

  function AsksAtMostFn(accounts: seq<Account>, nonPrime: bool, role: Role, max: nat, offset: nat): nat -> bool {
    (k: nat) => k < |accounts| && accounts[k].votingAccount < |accounts| && Asks(accounts, nonPrime, role, max, k)
                && Asked(Opinion(accounts, k), role) / 2 <= offset
  }

  function ApprovesFn(accounts: seq<Account>, nonPrime: bool, vote: nat): nat -> bool {
    (k: nat) => k < |accounts| && accounts[k].votingAccount < |accounts| && IsCounted(accounts, nonPrime, k)
                && vote in Opinion(accounts, k).votes
  }

  /**
   Stake speaks through the account that its owner lets vote, or itself; of
   accounts that are not prime only if they may.
   */
  predicate SpeaksThrough(accounts: seq<Account>, nonPrime: bool, k: nat, v: nat) {
    && k < |accounts| && v < |accounts| && (accounts[k].prime || nonPrime)
    && (v == accounts[k].votingAccount || accounts[k].votingAccount == 0) && (accounts[k].votingAccount == 0 ==> v == k)
  }

  lemma StakeSpeaks(accounts: seq<Account>, nonPrime: bool, max: nat, k: nat, offset: nat, vote: nat)
    requires k < |accounts| && accounts[k].votingAccount < |accounts|
    ensures AsksFn(accounts, nonPrime, Witness, max, offset)(k) <==>
              exists v: nat :: SpeaksThrough(accounts, nonPrime, k, v) && 2 * offset <= accounts[v].numWitness <= 2 * offset + 1
                          && accounts[v].numWitness <= max
    ensures AsksFn(accounts, nonPrime, Committee, max, offset)(k) <==>
              exists v: nat :: SpeaksThrough(accounts, nonPrime, k, v) && 2 * offset <= accounts[v].numCommittee <= 2 * offset + 1
                          && accounts[v].numCommittee <= max
    ensures ApprovesFn(accounts, nonPrime, vote)(k) <==>
              exists v: nat :: SpeaksThrough(accounts, nonPrime, k, v) && vote in accounts[v].votes
    ensures VotesFn(accounts, nonPrime)(k) <==> exists v: nat :: SpeaksThrough(accounts, nonPrime, k, v)
  {
    var v := if accounts[k].votingAccount == 0 then k else accounts[k].votingAccount;
    assert accounts[k].prime || nonPrime ==> SpeaksThrough(accounts, nonPrime, k, v);
    assert forall w: nat :: SpeaksThrough(accounts, nonPrime, k, w) ==> w == v;
  }

  /** The histogram holds, at each offset, the stake that asks for it. */
  ghost predicate IsHistogram(accounts: seq<Account>, nonPrime: bool, role: Role, max: nat, histogram: seq<nat>) {
    && |histogram| == max / 2 + 1
    && forall i :: 0 <= i < |histogram| ==>
         histogram[i] == StakeOf(accounts, |accounts|, AsksFn(accounts, nonPrime, role, max, i))
  }

  function Prefix(histogram: seq<nat>, i: nat): nat
    requires i < |histogram|
  {
    histogram[i] + if i == 0 then 0 else Prefix(histogram, i - 1)
  }

  lemma {:induction false} StakeOfParts(accounts: seq<Account>, n: nat,
                                        p: nat -> bool, q: nat -> bool, either: nat -> bool)
    requires n <= |accounts| && forall k :: 0 <= k < n ==> !(p(k) && q(k)) && either(k) == (p(k) || q(k))
    ensures StakeOf(accounts, n, either) == StakeOf(accounts, n, p) + StakeOf(accounts, n, q)
  {
    if n == 0 {
    } else {
      StakeOfParts(accounts, n - 1, p, q, either);
    }
  }

  lemma {:induction false} StakeOfSame(accounts: seq<Account>, n: nat, p: nat -> bool, q: nat -> bool)
    requires n <= |accounts| && forall k :: 0 <= k < n ==> p(k) == q(k)
    ensures StakeOf(accounts, n, p) == StakeOf(accounts, n, q)
  {
    if n == 0 {
    } else {
      StakeOfSame(accounts, n - 1, p, q);
    }
  }

  /** The entries up to an offset add up to the stake that asks for at most that. */
  lemma {:induction false} PrefixIsStake(
    accounts: seq<Account>, nonPrime: bool, role: Role, max: nat, histogram: seq<nat>, i: nat)
    requires IsHistogram(accounts, nonPrime, role, max, histogram) && i < |histogram|
    ensures Prefix(histogram, i) == StakeOf(accounts, |accounts|, AsksAtMostFn(accounts, nonPrime, role, max, i))
  {
    hide Asks, Opinion;
    if i == 0 {
      StakeOfSame(accounts, |accounts|, AsksFn(accounts, nonPrime, role, max, 0), AsksAtMostFn(accounts, nonPrime, role, max, 0));
    } else {
      PrefixIsStake(accounts, nonPrime, role, max, histogram, i - 1);
      StakeOfParts(accounts, |accounts|, AsksFn(accounts, nonPrime, role, max, i), AsksAtMostFn(accounts, nonPrime, role, max, i - 1),
                   AsksAtMostFn(accounts, nonPrime, role, max, i));
    }
  }

  // ----- the scan -----

  function Sum(histogram: seq<nat>): nat {
    if histogram == [] then 0 else Prefix(histogram, |histogram| - 1)
  }

  /** The scan from an offset on; `None` reads beyond the end of the histogram. */
  function ScanFrom(histogram: seq<nat>, target: nat, i: nat, tally: nat): Option<nat>
    requires i <= |histogram|
    decreases |histogram| - i
  {
    if i < |histogram| && tally <= target then
      if i + 1 < |histogram| then ScanFrom(histogram, target, i + 1, tally + histogram[i + 1]) else None
    else Some(i)
  }

  function Scan(histogram: seq<nat>, total: nat): Option<nat>
    requires |histogram| > 0
  {
    ScanFrom(histogram, total / 2, 0, histogram[0])
  }

  lemma {:induction false} PrefixGrows(histogram: seq<nat>, i: nat, j: nat)
    requires i <= j < |histogram|
    ensures Prefix(histogram, i) <= Prefix(histogram, j)
  {
    if i == j {
    } else {
      PrefixGrows(histogram, i, j - 1);
    }
  }

  lemma {:induction false} ScanFromFinds(histogram: seq<nat>, target: nat, i: nat)
    requires i < |histogram| && forall j :: 0 <= j < i ==> Prefix(histogram, j) <= target
    ensures var r := ScanFrom(histogram, target, i, Prefix(histogram, i));
            && (r.Some? <==> Sum(histogram) > target)
            && (r.Some? ==> r.value < |histogram| && Prefix(histogram, r.value) > target
                            && forall j :: 0 <= j < r.value ==> Prefix(histogram, j) <= target)
    decreases |histogram| - i
  {
    if Prefix(histogram, i) <= target {
      if i + 1 < |histogram| {
        assert Prefix(histogram, i + 1) == Prefix(histogram, i) + histogram[i + 1];
        ScanFromFinds(histogram, target, i + 1);
      }
    } else {
      PrefixGrows(histogram, i, |histogram| - 1);
    }
  }

  /**
   The scan stays within the histogram exactly when more than half of the stake is counted, and
   then finds the least entry that more than half of the stake asks for at most.
   */
  lemma {:induction false} ScanFindsMedian(accounts: seq<Account>, nonPrime: bool, role: Role, max: nat,
                                           histogram: seq<nat>)
    requires IsHistogram(accounts, nonPrime, role, max, histogram)
    ensures var total := StakeOf(accounts, |accounts|, VotesFn(accounts, nonPrime));
            var counted := StakeOf(accounts, |accounts|, AsksAtMostFn(accounts, nonPrime, role, max, max / 2));
            var r := Scan(histogram, total);
            && (r.Some? <==> counted > total / 2)
            && (r.Some? ==>
                  && r.value <= max / 2
                  && StakeOf(accounts, |accounts|, AsksAtMostFn(accounts, nonPrime, role, max, r.value)) > total / 2
                  && forall j :: 0 <= j < r.value ==>
                       StakeOf(accounts, |accounts|, AsksAtMostFn(accounts, nonPrime, role, max, j)) <= total / 2)
  {
    hide AsksAtMostFn, AsksFn, VotesFn;
    var total := StakeOf(accounts, |accounts|, VotesFn(accounts, nonPrime));
    ScanFromFinds(histogram, total / 2, 0);
    forall i | 0 <= i < |histogram|
      ensures Prefix(histogram, i) == StakeOf(accounts, |accounts|, AsksAtMostFn(accounts, nonPrime, role, max, i))
    {
      PrefixIsStake(accounts, nonPrime, role, max, histogram, i);
    }
  }

  /** When no one asks for more than the maximum, and someone votes, all of the stake is counted and the scan succeeds. */
  lemma {:induction false} ScanSucceeds(accounts: seq<Account>, nonPrime: bool, role: Role, max: nat, histogram: seq<nat>)
    requires Resolved(accounts) && IsHistogram(accounts, nonPrime, role, max, histogram)
    requires forall k :: 0 <= k < |accounts| && IsCounted(accounts, nonPrime, k) ==> Asked(Opinion(accounts, k), role) <= max
    ensures var total := StakeOf(accounts, |accounts|, VotesFn(accounts, nonPrime));
            Sum(histogram) == total && (Scan(histogram, total).Some? <==> total > 0)
  {
    var total := StakeOf(accounts, |accounts|, VotesFn(accounts, nonPrime));
    PrefixIsStake(accounts, nonPrime, role, max, histogram, max / 2);
    StakeOfSame(accounts, |accounts|, VotesFn(accounts, nonPrime), AsksAtMostFn(accounts, nonPrime, role, max, max / 2));
    ScanFromFinds(histogram, total / 2, 0);
  }
}
