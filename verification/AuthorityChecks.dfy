/** The state of a transaction's evaluation, whose recursive check fills in what it approved. */
module AuthorityChecks {
  import opened Authorities

  class TransactionEvaluationState {
    const context: Context
    const skipAuthorityCheck: bool
    var approvedBy: set<Approval>

    constructor (context: Context, skip: bool)
      ensures this.context == context && skipAuthorityCheck == skip && approvedBy == {}
    {
      this.context, skipAuthorityCheck, approvedBy := context, skip, {};
    }

    predicate SignedBy(id: Id) {
      id in context.signatures
    }

    method CheckAuthority(account: nat, c: Classification, depth: nat) returns (r: Outcome)
      requires account in context.accounts && depth <= MAX_DEPTH
      modifies this
      ensures skipAuthorityCheck ==> r == Approved && approvedBy == old(approvedBy)
      ensures !skipAuthorityCheck ==> (r, approvedBy) == Check(context, old(approvedBy), account, c, depth)
      decreases MAX_DEPTH - depth, 1
    {
      if skipAuthorityCheck || (Account(account), c) in approvedBy { return Approved; }
      if account == 0 && !context.proposed { return Threw; }
      if c == KeyClass { return Threw; }
      var authority := context.AuthorityOf(account, c);
      var totalWeight: nat := 0;
      for i := 0 to |authority.auths|
        invariant CheckFrom(context, old(approvedBy), account, c, depth, 0, 0)
                  == CheckFrom(context, approvedBy, account, c, depth, i, totalWeight)
      {
        var (id, weight) := authority.auths[i];
        var counts;
        r, counts := ConsiderAuthorization(id, c, depth);
        if r != Approved { return; }
        if counts { totalWeight := totalWeight + weight; }
        if totalWeight >= authority.threshold {
          approvedBy := approvedBy + {(Account(account), c)};
          return Approved;
        }
      }
      return Denied;
    }

    /** The body of the loop: adds to what is remembered, and says whether the authorization counts. */
    method ConsiderAuthorization(id: Id, c: Classification, depth: nat) returns (r: Outcome, counts: bool)
      requires depth <= MAX_DEPTH && !skipAuthorityCheck
      modifies this
      ensures (r, counts, approvedBy) == Consider(context, old(approvedBy), id, c, depth)
      decreases MAX_DEPTH - depth, 0
    {
      if (id, c) in approvedBy { return Approved, true; }
      if !context.Exists(id) { return Threw, false; }
      match id {
        case Account(a) =>
          if depth == MAX_DEPTH { return Denied, false; }
          r := CheckAuthority(a, c, depth + 1);
          if r == Threw { return Threw, false; }
          counts := r == Approved;
          if counts { approvedBy := approvedBy + {(id, c)}; }
          return Approved, counts;
        case Key(_) =>
          counts := SignedBy(id);
          if counts { approvedBy := approvedBy + {(id, KeyClass)}; }
          return Approved, counts;
        case Other(_) =>
          return Threw, false;
      }
    }
  }
}
