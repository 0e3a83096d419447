/** The buffers that a count of the votes fills in. */
module VoteTally {
  import opened Wrappers
  import opened Votes

  class Tally {
    var votes: seq<nat>
    var witnesses: seq<nat>
    var committee: seq<nat>
    var totalStake: nat

    constructor ()
      ensures votes == [] && witnesses == committee == [] && totalStake == 0
    {
      votes, witnesses, committee, totalStake := [], [], [], 0;
    }

    /** Counts all votes afresh; the buffers were cleared after the last count. */
    method UpdateVoteTotals(accounts: seq<Account>, nonPrime: bool, maxWitnesses: nat, maxCommittee: nat, nextVote: nat)
      requires Resolved(accounts)
      modifies this
      ensures IsHistogram(accounts, nonPrime, Witness, maxWitnesses, witnesses)
      ensures IsHistogram(accounts, nonPrime, Committee, maxCommittee, committee)
      ensures totalStake == StakeOf(accounts, |accounts|, VotesFn(accounts, nonPrime))
      ensures |votes| == nextVote
      ensures forall v :: 0 <= v < nextVote ==> votes[v] == StakeOf(accounts, |accounts|, ApprovesFn(accounts, nonPrime, v))
    {
      hide IsHistogramOf;
      votes := seq(nextVote, _ => 0);
      witnesses, committee := seq(maxWitnesses / 2 + 1, _ => 0), seq(maxCommittee / 2 + 1, _ => 0);
      totalStake := 0;
      NoneAsked(accounts, nonPrime, Witness, maxWitnesses, witnesses);
      NoneAsked(accounts, nonPrime, Committee, maxCommittee, committee);
      for k := 0 to |accounts|
        invariant |votes| == nextVote
        invariant totalStake == StakeOf(accounts, k, VotesFn(accounts, nonPrime))
        invariant IsHistogramOf(accounts, k, nonPrime, Witness, maxWitnesses, witnesses)
        invariant IsHistogramOf(accounts, k, nonPrime, Committee, maxCommittee, committee)
        invariant forall v :: 0 <= v < nextVote ==> votes[v] == StakeOf(accounts, k, ApprovesFn(accounts, nonPrime, v))
      {
        if IsCounted(accounts, nonPrime, k) {
          var opinion := Opinion(accounts, k);
          var stake := accounts[k].stake;
          AddVotes(opinion.votes, stake);
          witnesses := AddAsked(accounts, k, nonPrime, Witness, maxWitnesses, witnesses);
          committee := AddAsked(accounts, k, nonPrime, Committee, maxCommittee, committee);
          totalStake := totalStake + stake;
        } else {
          SkippedAsks(accounts, k, nonPrime, Witness, maxWitnesses, witnesses);
          SkippedAsks(accounts, k, nonPrime, Committee, maxCommittee, committee);
        }
      }
      HistogramOfAll(accounts, nonPrime, Witness, maxWitnesses, witnesses);
      HistogramOfAll(accounts, nonPrime, Committee, maxCommittee, committee);
    }

    /** Adds the stake of an account to the entry that its opinion asks for; too high numbers are not counted. */
    method AddAsked(accounts: seq<Account>, k: nat, nonPrime: bool, role: Role, max: nat, histogram: seq<nat>)
      returns (added: seq<nat>)
      requires k < |accounts| && Resolved(accounts) && IsCounted(accounts, nonPrime, k)
      requires IsHistogramOf(accounts, k, nonPrime, role, max, histogram)
      ensures IsHistogramOf(accounts, k + 1, nonPrime, role, max, added)
    {
      var asked := Asked(Opinion(accounts, k), role);
      added := histogram;
      if asked <= max {
        var offset := if asked / 2 < |histogram| - 1 then asked / 2 else |histogram| - 1;
        added := added[offset := added[offset] + accounts[k].stake];
      }
    }

    /** Adds a stake to the tally of each vote; illegal ones are ignored. */
    method AddVotes(approved: set<nat>, stake: nat)
      modifies `votes
      ensures |votes| == |old(votes)|
      ensures forall v :: 0 <= v < |votes| ==> votes[v] == old(votes)[v] + if v in approved then stake else 0
    {
      var rest := approved;
      while rest != {}
        invariant rest <= approved && |votes| == |old(votes)|
        invariant forall v :: 0 <= v < |votes| ==> votes[v] == old(votes)[v] + if v in approved - rest then stake else 0
        decreases |rest|
      {
        var v :| v in rest;
        rest := rest - {v};
        if v < |votes| { votes := votes[v := votes[v] + stake]; }
      }
    }

    method WitnessCount() returns (count: Option<nat>)
      requires |witnesses| > 0
      ensures count == Scan(witnesses, totalStake)
    {
      count := ScanHistogram(witnesses);
    }

    method CommitteeCount() returns (count: Option<nat>)
      requires |committee| > 0
      ensures count == Scan(committee, totalStake)
    {
      count := ScanHistogram(committee);
    }

    /** The least count that more than half of the stake asks for at most; none where the scan reads past the end. */
    method ScanHistogram(histogram: seq<nat>) returns (count: Option<nat>)
      requires |histogram| > 0
      ensures count == Scan(histogram, totalStake)
    {
      var tally: nat, i := histogram[0], 0;
      while i < |histogram| && tally <= totalStake / 2
        invariant i < |histogram| && Scan(histogram, totalStake) == ScanFrom(histogram, totalStake / 2, i, tally)
        decreases |histogram| - i
      {
        i := i + 1;
        if i == |histogram| {
          return None;
        }
        tally := tally + histogram[i];
      }
      return Some(i);
    }
  }

  /** The histogram of the first `n` accounts. */
  ghost predicate IsHistogramOf(accounts: seq<Account>, n: nat, nonPrime: bool, role: Role, max: nat, histogram: seq<nat>)
    requires n <= |accounts|
  {
    && |histogram| == max / 2 + 1
    && forall i :: 0 <= i < |histogram| ==> histogram[i] == StakeOf(accounts, n, AsksFn(accounts, nonPrime, role, max, i))
  }

  lemma NoneAsked(accounts: seq<Account>, nonPrime: bool, role: Role, max: nat, histogram: seq<nat>)
    requires histogram == seq(max / 2 + 1, _ => 0)
    ensures IsHistogramOf(accounts, 0, nonPrime, role, max, histogram)
  {
  }

  lemma SkippedAsks(accounts: seq<Account>, k: nat, nonPrime: bool, role: Role, max: nat, histogram: seq<nat>)
    requires k < |accounts| && !IsCounted(accounts, nonPrime, k)
    requires IsHistogramOf(accounts, k, nonPrime, role, max, histogram)
    ensures IsHistogramOf(accounts, k + 1, nonPrime, role, max, histogram)
  {
  }

  lemma HistogramOfAll(accounts: seq<Account>, nonPrime: bool, role: Role, max: nat, histogram: seq<nat>)
    requires IsHistogramOf(accounts, |accounts|, nonPrime, role, max, histogram)
    ensures IsHistogram(accounts, nonPrime, role, max, histogram)
  {
  }
}
