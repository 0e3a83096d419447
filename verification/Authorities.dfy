/**
 Checking that an account approves a transaction: a recursion over accounts that authorize each
 other, limited in depth, that remembers what it has approved. What it remembers makes the
 result depend on the order of the visits; the result still lies between two that do not.
 */
module Authorities {

  const MAX_DEPTH := 2

  datatype Id = Account(instance: nat) | Key(instance: nat) | Other(instance: nat)

  datatype Classification = Owner | Active | KeyClass

  type Weight = w: int | 0 <= w < 0x1_0000

  datatype Authority = Authority(threshold: nat, auths: seq<(Id, Weight)>)

  datatype AccountData = AccountData(owner: Authority, active: Authority)

  type Approval = (Id, Classification)

  /** The accounts, the other objects that exist, the signatures, and whether the transaction is a proposed one. */
  datatype Context = Context(accounts: map<nat, AccountData>, others: set<Id>, signatures: set<Id>, proposed: bool) {

    predicate Exists(id: Id) {
      if id.Account? then id.instance in accounts else id in others
    }

    function AuthorityOf(account: nat, c: Classification): Authority
      requires account in accounts && c != KeyClass
    {
      if c == Owner then accounts[account].owner else accounts[account].active
    }
  }

  datatype Outcome = Approved | Denied | Threw

  // ----- the check, with what it remembers -----

  /** The outcome, and the approvals remembered after it. */
  function Check(x: Context, memo: set<Approval>, account: nat, c: Classification,
                 depth: nat): (r: (Outcome, set<Approval>))
    requires account in x.accounts && depth <= MAX_DEPTH
    ensures memo <= r.1
    decreases MAX_DEPTH - depth, 1, 0
  {
    if (Account(account), c) in memo then (Approved, memo)
    else if account == 0 && !x.proposed then (Threw, memo)
    else if c == KeyClass then (Threw, memo)
    else CheckFrom(x, memo, account, c, depth, 0, 0)
  }

  /** One authorization: whether it counts, and the approvals remembered; denied means beyond the depth. */
  function Consider(
    x: Context, memo: set<Approval>, id: Id, c: Classification, depth: nat): (r: (Outcome, bool, set<Approval>))
    requires depth <= MAX_DEPTH
    ensures memo <= r.2
    decreases MAX_DEPTH - depth, 0, 1
  {
    if (id, c) in memo then (Approved, true, memo)
    else if !x.Exists(id) then (Threw, false, memo)
    else
      match id
      case Account(a) =>
        if depth == MAX_DEPTH then (Denied, false, memo)
        else
          var (r, memo') := Check(x, memo, a, c, depth + 1);
          if r == Threw then (Threw, false, memo')
          else if r == Approved then (Approved, true, memo' + {(id, c)})
          else (Approved, false, memo')
      case Key(_) =>
        if id in x.signatures then (Approved, true, memo + {(id, KeyClass)}) else (Approved, false, memo)
      case Other(_) => (Threw, false, memo)
  }

  /** The loop, from one authorization on. */
  function CheckFrom(x: Context, memo: set<Approval>, account: nat, c: Classification, depth: nat, i: nat, total: nat)
    : (r: (Outcome, set<Approval>))
    requires account in x.accounts && c != KeyClass && depth <= MAX_DEPTH
    requires i <= |x.AuthorityOf(account, c).auths|
    ensures memo <= r.1
    decreases MAX_DEPTH - depth, 0, 2, |x.AuthorityOf(account, c).auths| - i
  {
    var au := x.AuthorityOf(account, c);
    if i == |au.auths| then (Denied, memo)
    else
      var (r, counts, memo') := Consider(x, memo, au.auths[i].0, c, depth);
      if r != Approved then (r, memo')
      else
        var total' := if counts then total + au.auths[i].1 else total;
        if total' >= au.threshold then (Approved, memo' + {(Account(account), c)})
        else CheckFrom(x, memo', account, c, depth, i + 1, total')
  }

  // ----- the same recursion, remembering nothing -----

  function Plain(x: Context, given: set<Approval>, account: nat, c: Classification, depth: nat): Outcome
    requires account in x.accounts && depth <= MAX_DEPTH
    decreases MAX_DEPTH - depth, 1, 0
  {
    if (Account(account), c) in given then Approved
    else if account == 0 && !x.proposed then Threw
    else if c == KeyClass then Threw
    else PlainFrom(x, given, account, c, depth, 0, 0)
  }

  function PlainConsider(x: Context, given: set<Approval>, id: Id, c: Classification, depth: nat): (Outcome, bool)
    requires depth <= MAX_DEPTH
    decreases MAX_DEPTH - depth, 0, 1
  {
    if (id, c) in given then (Approved, true)
    else if !x.Exists(id) then (Threw, false)
    else
      match id
      case Account(a) =>
        if depth == MAX_DEPTH then (Denied, false)
        else if Plain(x, given, a, c, depth + 1) == Threw then (Threw, false)
        else (Approved, Plain(x, given, a, c, depth + 1) == Approved)
      case Key(_) => (Approved, id in x.signatures)
      case Other(_) => (Threw, false)
  }

  function PlainFrom(
    x: Context, given: set<Approval>, account: nat, c: Classification, depth: nat, i: nat, total: nat): Outcome
    requires account in x.accounts && c != KeyClass && depth <= MAX_DEPTH
    requires i <= |x.AuthorityOf(account, c).auths|
    decreases MAX_DEPTH - depth, 0, 2, |x.AuthorityOf(account, c).auths| - i
  {
    var au := x.AuthorityOf(account, c);
    if i == |au.auths| then Denied
    else
      var (r, counts) := PlainConsider(x, given, au.auths[i].0, c, depth);
      if r != Approved then r
      else
        var total' := if counts then total + au.auths[i].1 else total;
        if total' >= au.threshold then Approved else PlainFrom(x, given, account, c, depth, i + 1, total')
  }

  // ----- approval as a least fixed point: justified in n rounds -----

  ghost predicate Justified(x: Context, given: set<Approval>, n: nat, id: Id, c: Classification)
    decreases n, 0, 0
  {
    || (id, c) in given
    || (id.Key? && c == KeyClass && id in x.signatures)
    || (id.Account? && n > 0 && c != KeyClass && id.instance in x.accounts && (id.instance != 0 || x.proposed)
        && x.AuthorityOf(id.instance, c).auths != []
        && WeightUpTo(x, given, n - 1, x.AuthorityOf(id.instance, c).auths, |x.AuthorityOf(id.instance, c).auths|, c)
           >= x.AuthorityOf(id.instance, c).threshold)
  }

  /** Whether an authorization adds its weight. */
  ghost predicate Counts(x: Context, given: set<Approval>, n: nat, id: Id, c: Classification)
    decreases n, 1, 0
  {
    (id.Key? && id in x.signatures) || Justified(x, given, n, id, c)
  }

  /** The weight of those of the first `i` authorizations that count. */
  ghost function WeightUpTo(
    x: Context, given: set<Approval>, n: nat, auths: seq<(Id, Weight)>, i: nat, c: Classification): nat
    requires i <= |auths|
    decreases n, 2, i
  {
    if i == 0 then 0
    else WeightUpTo(x, given, n, auths, i - 1, c) + if Counts(x, given, n, auths[i - 1].0, c) then auths[i - 1].1 else 0
  }

  lemma {:induction false} WeightGrows(
    x: Context, given: set<Approval>, n: nat, auths: seq<(Id, Weight)>, i: nat, j: nat, c: Classification)
    requires i <= j <= |auths|
    ensures WeightUpTo(x, given, n, auths, i, c) <= WeightUpTo(x, given, n, auths, j, c)
    decreases j
  {
    if i == j {
    } else {
      WeightGrows(x, given, n, auths, i, j - 1, c);
    }
  }

  lemma {:induction false} MoreIsJustified(x: Context, given: set<Approval>, n: nat, m: nat, id: Id, c: Classification)
    requires n <= m && Justified(x, given, n, id, c)
    ensures Justified(x, given, m, id, c)
    decreases n, 1, 0
  {
    if (id, c) !in given && id.Account? {
      var auths := x.AuthorityOf(id.instance, c).auths;
      WeightGrowsInTime(x, given, n - 1, m - 1, auths, |auths|, c);
    }
  }

  lemma {:induction false} WeightGrowsInTime(
    x: Context, given: set<Approval>, n: nat, m: nat, auths: seq<(Id, Weight)>, i: nat, c: Classification)
    requires n <= m && i <= |auths|
    ensures WeightUpTo(x, given, n, auths, i, c) <= WeightUpTo(x, given, m, auths, i, c)
    decreases n, 2, i
  {
    if i == 0 {
    } else {
      WeightGrowsInTime(x, given, n, m, auths, i - 1, c);
      if Justified(x, given, n, auths[i - 1].0, c) { MoreIsJustified(x, given, n, m, auths[i - 1].0, c); }
    }
  }

  ghost predicate AllJustified(x: Context, given: set<Approval>, n: nat, memo: set<Approval>) {
    forall id, c :: (id, c) in memo ==> Justified(x, given, n, id, c)
  }

  lemma AllStillJustified(x: Context, given: set<Approval>, n: nat, m: nat, memo: set<Approval>)
    requires n <= m && AllJustified(x, given, n, memo)
    ensures AllJustified(x, given, m, memo)
  {
    forall id, c | (id, c) in memo
      ensures Justified(x, given, m, id, c)
    {
      MoreIsJustified(x, given, n, m, id, c);
    }
  }

  // ----- soundness: whatever is approved or remembered is justified -----

  lemma {:induction false} CheckIsSound(
    x: Context, given: set<Approval>, memo: set<Approval>, account: nat, c: Classification,
                                        depth: nat, n: nat) returns (n': nat)
    requires account in x.accounts && depth <= MAX_DEPTH && AllJustified(x, given, n, memo)
    ensures n <= n'
    ensures var (r, memo') := Check(x, memo, account, c, depth);
            AllJustified(x, given, n', memo') && (r == Approved ==> Justified(x, given, n', Account(account), c))
    decreases MAX_DEPTH - depth, 1, 0
  {
    hide Justified;
    n' := n;
    if (Account(account), c) !in memo && (account != 0 || x.proposed) && c != KeyClass {
      n' := CheckFromIsSound(x, given, memo, account, c, depth, 0, 0, n);
    }
  }

  lemma {:induction false} ConsiderIsSound(x: Context, given: set<Approval>, memo: set<Approval>, id: Id,
                                           c: Classification,
                                           depth: nat, n: nat) returns (n': nat)
    requires depth <= MAX_DEPTH && AllJustified(x, given, n, memo)
    ensures n <= n'
    ensures var (r, counts, memo') := Consider(x, memo, id, c, depth);
            AllJustified(x, given, n', memo') && (counts ==> Counts(x, given, n', id, c))
    decreases MAX_DEPTH - depth, 0, 1
  {
    n' := n;
    if (id, c) !in memo && x.Exists(id) && id.Account? && depth < MAX_DEPTH {
      n' := CheckIsSound(x, given, memo, id.instance, c, depth + 1, n);
    }
  }

  lemma {:induction false} CheckFromIsSound(
    x: Context, given: set<Approval>, memo: set<Approval>, account: nat, c: Classification,
                                            depth: nat, i: nat, total: nat, n: nat) returns (n': nat)
    requires account in x.accounts && c != KeyClass && depth <= MAX_DEPTH && AllJustified(x, given, n, memo)
    requires account != 0 || x.proposed
    requires i <= |x.AuthorityOf(account, c).auths|
    requires total <= WeightUpTo(x, given, n, x.AuthorityOf(account, c).auths, i, c)
    ensures n <= n'
    ensures var (r, memo') := CheckFrom(x, memo, account, c, depth, i, total);
            AllJustified(x, given, n', memo') && (r == Approved ==> Justified(x, given, n', Account(account), c))
    decreases MAX_DEPTH - depth, 0, 2, |x.AuthorityOf(account, c).auths| - i
  {
    hide Consider, Counts;
    n' := n;
    var au := x.AuthorityOf(account, c);
    if i < |au.auths| {
      n' := ConsiderIsSound(x, given, memo, au.auths[i].0, c, depth, n);
      var (r, counts, memo') := Consider(x, memo, au.auths[i].0, c, depth);
      WeightGrowsInTime(x, given, n, n', au.auths, i, c);
      var total' := if counts then total + au.auths[i].1 else total;
      if r == Approved {
        if total' >= au.threshold {
          WeightGrows(x, given, n', au.auths, i + 1, |au.auths|, c);
          AllStillJustified(x, given, n', n' + 1, memo');
          n' := n' + 1;
        } else {
          n' := CheckFromIsSound(x, given, memo', account, c, depth, i + 1, total', n');
        }
      }
    }
  }

  // ----- when the check throws -----

  /**
   Something that may be named without harm: it exists, is an account or a key, and
   is not account 0 before its time.
   */
  predicate MayBeNamed(x: Context, id: Id) {
    x.Exists(id) && !id.Other? && (id == Account(0) ==> x.proposed)
  }

  /** The authorities of a class that an account can have name only such things. */
  ghost predicate WellNamed(x: Context, c: Classification) {
    c != KeyClass && forall a <- x.accounts :: NamesOnlySuch(x, x.AuthorityOf(a, c).auths)
  }

  predicate NamesOnlySuch(x: Context, auths: seq<(Id, Weight)>) {
    forall i | 0 <= i < |auths| :: MayBeNamed(x, auths[i].0)
  }

  /** Then no check of an account that may be asked throws, whatever is remembered. */
  lemma {:induction false} CheckNeverThrows(x: Context, memo: set<Approval>, account: nat, c: Classification, depth: nat)
    requires account in x.accounts && depth <= MAX_DEPTH && WellNamed(x, c) && (account != 0 || x.proposed)
    ensures Check(x, memo, account, c, depth).0 != Threw
    decreases MAX_DEPTH - depth, 1, 0
  {
    hide WellNamed;
    KeyClassIsNotNamed(x, c);
    if (Account(account), c) !in memo { CheckFromNeverThrows(x, memo, account, c, depth, 0, 0); }
  }

  lemma KeyClassIsNotNamed(x: Context, c: Classification)
    requires WellNamed(x, c)
    ensures c != KeyClass
  {
  }

  lemma {:induction false} CheckFromNeverThrows(
    x: Context, memo: set<Approval>, account: nat, c: Classification, depth: nat, i: nat, total: nat)
    requires account in x.accounts && c != KeyClass && depth <= MAX_DEPTH && WellNamed(x, c)
    requires i <= |x.AuthorityOf(account, c).auths|
    ensures CheckFrom(x, memo, account, c, depth, i, total).0 != Threw
    decreases MAX_DEPTH - depth, 0, 2, |x.AuthorityOf(account, c).auths| - i
  {
    var au := x.AuthorityOf(account, c);
    if i < |au.auths| {
      assert NamesOnlySuch(x, au.auths) && MayBeNamed(x, au.auths[i].0);
      hide WellNamed, MayBeNamed, Consider;
      var (id, weight) := au.auths[i];
      ConsiderNeverThrows(x, memo, id, c, depth);
      var (r, counts, memo') := Consider(x, memo, id, c, depth);
      CheckFromNeverThrows(x, memo', account, c, depth, i + 1, if counts then total + weight else total);
    }
  }

  lemma {:induction false} ConsiderNeverThrows(x: Context, memo: set<Approval>, id: Id, c: Classification, depth: nat)
    requires depth <= MAX_DEPTH && WellNamed(x, c) && MayBeNamed(x, id)
    ensures Consider(x, memo, id, c, depth).0 != Threw
    decreases MAX_DEPTH - depth, 0, 1
  {
    hide WellNamed;
    if (id, c) !in memo && id.Account? && depth < MAX_DEPTH {
      CheckNeverThrows(x, memo, id.instance, c, depth + 1);
    }
  }

  /** Account 0 is asked in proposed transactions only, and keys have no authority. */
  lemma {:induction false} CheckThrows(x: Context, memo: set<Approval>, account: nat, c: Classification, depth: nat)
    requires account in x.accounts && depth <= MAX_DEPTH && (Account(account), c) !in memo
    requires c == KeyClass || (account == 0 && !x.proposed)
    ensures Check(x, memo, account, c, depth) == (Threw, memo)
  {
  }

  // ----- completeness: remembering only adds approvals -----

  lemma {:induction false} CheckIsComplete(
    x: Context, given: set<Approval>, memo: set<Approval>, account: nat, c: Classification, depth: nat)
    requires account in x.accounts && depth <= MAX_DEPTH && given <= memo
    requires Plain(x, given, account, c, depth) == Approved && Check(x, memo, account, c, depth).0 != Threw
    ensures Check(x, memo, account, c, depth).0 == Approved
    decreases MAX_DEPTH - depth, 1, 0
  {
    if (Account(account), c) !in memo {
      CheckFromIsComplete(x, given, memo, account, c, depth, 0, 0, 0);
    }
  }

  lemma {:induction false} ConsiderIsComplete(
    x: Context, given: set<Approval>, memo: set<Approval>, id: Id, c: Classification, depth: nat)
    requires depth <= MAX_DEPTH && given <= memo
    requires PlainConsider(x, given, id, c, depth).0 == Approved && Consider(x, memo, id, c, depth).0 != Threw
    ensures Consider(x, memo, id, c, depth).0 == Approved
    ensures PlainConsider(x, given, id, c, depth).1 ==> Consider(x, memo, id, c, depth).1
    decreases MAX_DEPTH - depth, 0, 1
  {
    if (id, c) !in memo && id.Account? && Plain(x, given, id.instance, c, depth + 1) == Approved {
      CheckIsComplete(x, given, memo, id.instance, c, depth + 1);
    }
  }

  lemma {:induction false} CheckFromIsComplete(
    x: Context, given: set<Approval>, memo: set<Approval>, account: nat, c: Classification,
                                               depth: nat, i: nat, plain: nat, total: nat)
    requires account in x.accounts && c != KeyClass && depth <= MAX_DEPTH && given <= memo && plain <= total
    requires i <= |x.AuthorityOf(account, c).auths|
    requires PlainFrom(x, given, account, c, depth, i, plain) == Approved
    requires CheckFrom(x, memo, account, c, depth, i, total).0 != Threw
    ensures CheckFrom(x, memo, account, c, depth, i, total).0 == Approved
    decreases MAX_DEPTH - depth, 0, 2, |x.AuthorityOf(account, c).auths| - i
  {
    hide Consider, PlainConsider;
    var au := x.AuthorityOf(account, c);
    if i < |au.auths| {
      var (id, weight) := au.auths[i];
      ConsiderIsComplete(x, given, memo, id, c, depth);
      var (r, counts, memo') := Consider(x, memo, id, c, depth);
      var plain' := if PlainConsider(x, given, id, c, depth).1 then plain + weight else plain;
      var total' := if counts then total + weight else total;
      if total' < au.threshold {
        CheckFromIsComplete(x, given, memo', account, c, depth, i + 1, plain', total');
      }
    }
  }

  // ----- what is remembered -----

  /** An approved account is remembered, and so are the signed keys that counted. */
  lemma {:induction false} CheckRemembers(x: Context, memo: set<Approval>, account: nat, c: Classification, depth: nat)
    requires account in x.accounts && depth <= MAX_DEPTH
    ensures var (r, memo') := Check(x, memo, account, c, depth); r == Approved ==> (Account(account), c) in memo'
  {
    if (Account(account), c) !in memo && (account != 0 || x.proposed) && c != KeyClass {
      CheckFromRemembers(x, memo, account, c, depth, 0, 0);
    }
  }

  lemma {:induction false} CheckFromRemembers(
    x: Context, memo: set<Approval>, account: nat, c: Classification, depth: nat, i: nat, total: nat)
    requires account in x.accounts && c != KeyClass && depth <= MAX_DEPTH
    requires i <= |x.AuthorityOf(account, c).auths|
    ensures var (r, memo') := CheckFrom(x, memo, account, c, depth, i, total); r == Approved ==> (Account(account), c) in memo'
    decreases |x.AuthorityOf(account, c).auths| - i
  {
    hide Consider;
    var au := x.AuthorityOf(account, c);
    if i < |au.auths| {
      var (r, counts, memo') := Consider(x, memo, au.auths[i].0, c, depth);
      CheckFromRemembers(x, memo', account, c, depth, i + 1, if counts then total + au.auths[i].1 else total);
    }
  }

  lemma {:induction false} ConsiderRemembers(x: Context, memo: set<Approval>, id: Id, c: Classification, depth: nat)
    requires depth <= MAX_DEPTH
    ensures var (r, counts, memo') := Consider(x, memo, id, c, depth);
            counts ==> (id, c) in memo' || (id in x.signatures && (id, KeyClass) in memo')
  {
    hide Check;
  }

  // ----- accounts with keys only -----

  /** The weight of the signed ones of the authorizations from one on. */
  ghost function SignedWeight(x: Context, auths: seq<(Id, Weight)>, i: nat): nat
    requires i <= |auths|
    decreases |auths| - i
  {
    if i == |auths| then 0 else (if auths[i].0 in x.signatures then auths[i].1 else 0) + SignedWeight(x, auths, i + 1)
  }

  ghost predicate KeysOnly(x: Context, auths: seq<(Id, Weight)>, c: Classification, memo: set<Approval>) {
    forall i :: 0 <= i < |auths| ==> auths[i].0.Key? && x.Exists(auths[i].0) && (auths[i].0, c) !in memo
  }

  lemma {:induction false} KeysDecideFrom(
    x: Context, memo: set<Approval>, account: nat, c: Classification, depth: nat, i: nat, total: nat)
    requires account in x.accounts && c != KeyClass && depth <= MAX_DEPTH
    requires i <= |x.AuthorityOf(account, c).auths| && KeysOnly(x, x.AuthorityOf(account, c).auths, c, memo)
    ensures var au := x.AuthorityOf(account, c);
            CheckFrom(x, memo, account, c, depth, i, total).0 ==
              if i < |au.auths| && total + SignedWeight(x, au.auths, i) >= au.threshold then Approved else Denied
    decreases |x.AuthorityOf(account, c).auths| - i
  {
    var au := x.AuthorityOf(account, c);
    if i < |au.auths| {
      var (r, counts, memo') := Consider(x, memo, au.auths[i].0, c, depth);
      var total' := if counts then total + au.auths[i].1 else total;
      KeysDecideFrom(x, memo', account, c, depth, i + 1, total');
    }
  }

  /** An account that only keys authorize is approved exactly when those that signed weigh enough. */
  lemma {:induction false} KeysDecide(x: Context, memo: set<Approval>, account: nat, c: Classification, depth: nat)
    requires account in x.accounts && c != KeyClass && depth <= MAX_DEPTH && (account != 0 || x.proposed)
    requires (Account(account), c) !in memo
    requires KeysOnly(x, x.AuthorityOf(account, c).auths, c, memo)
    ensures var au := x.AuthorityOf(account, c);
            Check(x, memo, account, c, depth).0 ==
              if au.auths != [] && SignedWeight(x, au.auths, 0) >= au.threshold then Approved else Denied
  {
    hide SignedWeight, KeysOnly, CheckFrom;
    KeysDecideFrom(x, memo, account, c, depth, 0, 0);
  }

  // ----- the checks of one transaction -----

  type Query = (nat, Classification)

  /** The outcomes of several checks in a row, and what is remembered after them. */
  function CheckAll(x: Context, memo: set<Approval>, queries: seq<Query>): (r: (seq<Outcome>, set<Approval>))
    requires forall q <- queries :: q.0 in x.accounts
    ensures |r.0| == |queries|
    decreases |queries|
  {
    if queries == [] then ([], memo)
    else
      var (r, memo') := Check(x, memo, queries[0].0, queries[0].1, 0);
      var (rest, end) := CheckAll(x, memo', queries[1..]);
      ([r] + rest, end)
  }

  /** Approved by the recursion that remembers nothing, within the depth. */
  predicate Obvious(x: Context, given: set<Approval>, q: Query)
    requires q.0 in x.accounts
  {
    Plain(x, given, q.0, q.1, 0) == Approved
  }

  /** A query about an account that may be asked, of a class whose authorities are well named. */
  ghost predicate MayBeAsked(x: Context, q: Query) {
    WellNamed(x, q.1) && (q.0 != 0 || x.proposed)
  }

  /**
   Whatever was asked before, no well named query throws, an account that plainly approves is approved unless the
   check throws, and an account that is approved is justified, as is every approval remembered.
   */
  lemma {:induction false} ChecksAreSandwiched(
    x: Context, given: set<Approval>, memo: set<Approval>, queries: seq<Query>, n: nat)
    returns (n': nat)
    requires forall q <- queries :: q.0 in x.accounts
    requires given <= memo && AllJustified(x, given, n, memo)
    ensures n <= n' && AllJustified(x, given, n', CheckAll(x, memo, queries).1)
    ensures var outcomes := CheckAll(x, memo, queries).0;
            forall k | 0 <= k < |queries| ::
              && (MayBeAsked(x, queries[k]) ==> outcomes[k] != Threw)
              && (Obvious(x, given, queries[k]) && outcomes[k] != Threw ==> outcomes[k] == Approved)
              && (outcomes[k] == Approved ==> Justified(x, given, n', Account(queries[k].0), queries[k].1))
    decreases |queries|
  {
    hide Check, Plain, Justified, WellNamed;
    n' := n;
    if queries == [] {
    } else {
      var (q, rest) := (queries[0], queries[1..]);
      var n0 := CheckIsSound(x, given, memo, q.0, q.1, 0, n);
      var (r, memo') := Check(x, memo, q.0, q.1, 0);
      if MayBeAsked(x, q) { CheckNeverThrows(x, memo, q.0, q.1, 0); }
      if Obvious(x, given, q) && r != Threw { CheckIsComplete(x, given, memo, q.0, q.1, 0); }
      n' := ChecksAreSandwiched(x, given, memo', rest, n0);
      if r == Approved { MoreIsJustified(x, given, n0, n', Account(q.0), q.1); }
      var outcomes := CheckAll(x, memo, queries).0;
      forall k | 0 <= k < |queries|
        ensures MayBeAsked(x, queries[k]) ==> outcomes[k] != Threw
        ensures Obvious(x, given, queries[k]) && outcomes[k] != Threw ==> outcomes[k] == Approved
        ensures outcomes[k] == Approved ==> Justified(x, given, n', Account(queries[k].0), queries[k].1)
      {
        if k > 0 { assert queries[k] == rest[k - 1] && outcomes[k] == CheckAll(x, memo', rest).0[k - 1]; }
      }
    }
  }

  // ----- within the depth the check decides justification -----

  /** No chain of accounts below this one is longer, but for those approved from the start. */
  ghost predicate Shallow(x: Context, given: set<Approval>, account: nat, c: Classification, n: nat)
    requires account in x.accounts && c != KeyClass
    decreases n
  {
    (Account(account), c) in given ||
    forall i | 0 <= i < |x.AuthorityOf(account, c).auths| ::
      var id := x.AuthorityOf(account, c).auths[i].0;
      id.Account? && (id, c) !in given && id.instance in x.accounts ==> n > 0 && Shallow(x, given, id.instance, c, n - 1)
  }

  lemma {:induction false} ShallowIsPlain(
    x: Context, given: set<Approval>, account: nat, c: Classification, depth: nat, n: nat)
    requires account in x.accounts && depth <= MAX_DEPTH && WellNamed(x, c) && (account != 0 || x.proposed)
    requires c != KeyClass && Shallow(x, given, account, c, MAX_DEPTH - depth)
    ensures Plain(x, given, account, c, depth) != Threw
    ensures Justified(x, given, n, Account(account), c) ==> Plain(x, given, account, c, depth) == Approved
    decreases MAX_DEPTH - depth, 1, 0
  {
    if (Account(account), c) !in given {
      PlainFromApproves(x, given, account, c, depth, 0, 0, if n > 0 then n - 1 else 0);
    }
  }

  /** The weight of what counts reaches the threshold in the loop, if all of it does. */
  lemma {:induction false} PlainFromApproves(
    x: Context, given: set<Approval>, account: nat, c: Classification, depth: nat, i: nat, total: nat, n: nat)
    requires account in x.accounts && c != KeyClass && depth <= MAX_DEPTH && WellNamed(x, c)
    requires (Account(account), c) !in given && Shallow(x, given, account, c, MAX_DEPTH - depth)
    requires i <= |x.AuthorityOf(account, c).auths|
    requires WeightUpTo(x, given, n, x.AuthorityOf(account, c).auths, i, c) <= total
    requires i > 0 ==> total < x.AuthorityOf(account, c).threshold
    ensures PlainFrom(x, given, account, c, depth, i, total) != Threw
    ensures var au := x.AuthorityOf(account, c);
            au.auths != [] && WeightUpTo(x, given, n, au.auths, |au.auths|, c) >= au.threshold ==>
              PlainFrom(x, given, account, c, depth, i, total) == Approved
    decreases MAX_DEPTH - depth, 0, 2, |x.AuthorityOf(account, c).auths| - i
  {
    var au := x.AuthorityOf(account, c);
    if i < |au.auths| {
      var (id, weight) := au.auths[i];
      assert NamesOnlySuch(x, au.auths) && MayBeNamed(x, au.auths[i].0);
      assert id.Account? && (id, c) !in given ==>
                depth < MAX_DEPTH && Shallow(x, given, id.instance, c, MAX_DEPTH - depth - 1);
      hide WellNamed, Shallow, PlainConsider, Counts;
      ShallowConsiders(x, given, id, c, depth, n);
      var counts := PlainConsider(x, given, id, c, depth).1;
      var total' := if counts then total + weight else total;
      if total' < au.threshold { PlainFromApproves(x, given, account, c, depth, i + 1, total', n); }
    }
  }

  lemma {:induction false} ShallowConsiders(
    x: Context, given: set<Approval>, id: Id, c: Classification, depth: nat, n: nat)
    requires depth <= MAX_DEPTH && c != KeyClass && WellNamed(x, c) && MayBeNamed(x, id)
    requires id.Account? && (id, c) !in given ==>
              depth < MAX_DEPTH && Shallow(x, given, id.instance, c, MAX_DEPTH - depth - 1)
    ensures PlainConsider(x, given, id, c, depth).0 == Approved
    ensures Counts(x, given, n, id, c) ==> PlainConsider(x, given, id, c, depth).1
    decreases MAX_DEPTH - depth, 0, 1
  {
    hide WellNamed, Shallow;
    assert id.Key? && Justified(x, given, n, id, c) ==> (id, c) in given;
    if id.Account? && (id, c) !in given {
      ShallowIsPlain(x, given, id.instance, c, depth + 1, n);
    }
  }

  /**
   An account without longer chains below it is approved exactly when it is justified, whatever was asked before:
   remembering then makes no difference.
   */
  lemma {:induction false} ShallowChecksAreExact(
    x: Context, given: set<Approval>, queries: seq<Query>, k: nat, n: nat) returns (n': nat)
    requires (forall q <- queries :: q.0 in x.accounts) && k < |queries| && MayBeAsked(x, queries[k])
    requires queries[k].1 != KeyClass && Shallow(x, given, queries[k].0, queries[k].1, MAX_DEPTH)
    ensures var (q, outcome) := (queries[k], CheckAll(x, given, queries).0[k]);
            && (Justified(x, given, n, Account(q.0), q.1) ==> outcome == Approved)
            && (outcome == Approved ==> Justified(x, given, n', Account(q.0), q.1))
            && outcome != Threw
  {
    hide Justified, Shallow, WellNamed, CheckAll, Plain;
    AllGivenJustified(x, given);
    n' := ChecksAreSandwiched(x, given, given, queries, 0);
    var q := queries[k];
    ShallowIsPlain(x, given, q.0, q.1, 0, n);
  }

  /** The accounts of the set get too little weight from outside of it, so they can only approve each other. */
  ghost predicate Closed(x: Context, given: set<Approval>, s: set<nat>, c: Classification) {
    forall a <- s ::
      && (Account(a), c) !in given
      && (a in x.accounts && c != KeyClass ==>
            WeightOutside(s, x.AuthorityOf(a, c).auths, |x.AuthorityOf(a, c).auths|) < x.AuthorityOf(a, c).threshold)
  }

  ghost function WeightOutside(s: set<nat>, auths: seq<(Id, Weight)>, i: nat): nat
    requires i <= |auths|
  {
    if i == 0 then 0
    else WeightOutside(s, auths, i - 1) +
         if auths[i - 1].0.Account? && auths[i - 1].0.instance in s then 0 else auths[i - 1].1
  }

  lemma {:induction false} CyclesAreNotJustified(
    x: Context, given: set<Approval>, s: set<nat>, c: Classification, n: nat, a: nat)
    requires Closed(x, given, s, c) && a in s
    ensures !Justified(x, given, n, Account(a), c)
    decreases n, 1, 0
  {
    if n > 0 && a in x.accounts && c != KeyClass {
      var auths := x.AuthorityOf(a, c).auths;
      OnlyOutsideCounts(x, given, s, c, n - 1, auths, |auths|);
    }
  }

  lemma {:induction false} OnlyOutsideCounts(x: Context, given: set<Approval>, s: set<nat>, c: Classification, n: nat,
                                             auths: seq<(Id, Weight)>, i: nat)
    requires Closed(x, given, s, c) && i <= |auths|
    ensures WeightUpTo(x, given, n, auths, i, c) <= WeightOutside(s, auths, i)
    decreases n, 2, i
  {
    hide Justified, Closed;
    if i == 0 {
    } else {
      OnlyOutsideCounts(x, given, s, c, n, auths, i - 1);
      var id := auths[i - 1].0;
      if id.Account? && id.instance in s { CyclesAreNotJustified(x, given, s, c, n, id.instance); }
    }
  }

  /** A cycle of accounts never approves itself, whatever was checked before. */
  lemma {:induction false} CyclesNeverApprove(
    x: Context, given: set<Approval>, queries: seq<Query>, s: set<nat>, c: Classification, k: nat)
    requires (forall q <- queries :: q.0 in x.accounts) && k < |queries|
    requires Closed(x, given, s, c) && queries[k].0 in s && queries[k].1 == c
    ensures CheckAll(x, given, queries).0[k] != Approved
  {
    hide Justified, Closed, CheckAll;
    AllGivenJustified(x, given);
    var n := ChecksAreSandwiched(x, given, given, queries, 0);
    CyclesAreNotJustified(x, given, s, c, n, queries[k].0);
  }

  lemma AllGivenJustified(x: Context, given: set<Approval>)
    ensures AllJustified(x, given, 0, given)
  {
  }

  // ----- both inclusions are strict -----

  /** Account 1 needs both `near`, which account 5 authorizes, and `far`, which account 4 does, which 5 authorizes. */
  function Diamond(near: nat, far: nat): Context {
    var one := (a: Id) => Authority(1, [(a, 1)]);
    var active := map[1 := Authority(2, [(Account(2), 1), (Account(3), 1)]),
                      near := one(Account(5)), far := one(Account(4)), 4 := one(Account(5)), 5 := one(Key(9))];
    Context(map a <- active :: AccountData(active[a], active[a]), {Key(9)}, {Key(9)}, false)
  }

  predicate IsOne(x: Context, a: nat, id: Id) {
    a in x.accounts && a != 0 && x.accounts[a].active == Authority(1, [(id, 1)])
  }

  /** An account with one authorization is checked by considering that. */
  lemma {:induction false} OneChecks(x: Context, memo: set<Approval>, a: nat, id: Id, depth: nat)
    requires IsOne(x, a, id) && (Account(a), Active) !in memo && depth <= MAX_DEPTH
    ensures var ((r, memo'), (s, counts, memo'')) := (Check(x, memo, a, Active, depth), Consider(x, memo, id, Active, depth));
            if s != Approved then (r, memo') == (s, memo'')
            else if counts then (r, memo') == (Approved, memo'' + {(Account(a), Active)})
            else (r, memo') == (Denied, memo'')
  {
  }

  /** With the near account first, the far one is approved by what was remembered; without remembering it is not. */
  lemma NearThenFar()
    ensures var x := Diamond(2, 3);
            Check(x, {}, 1, Active, 0).0 == Approved && Plain(x, {}, 1, Active, 0) == Denied
  {
    var x := Diamond(2, 3);
    OneChecks(x, {}, 5, Key(9), 2);
    OneChecks(x, {}, 2, Account(5), 1);
    var memo := Check(x, {}, 2, Active, 1).1 + {(Account(2), Active)};
    assert (Account(5), Active) in memo;
    OneChecks(x, memo, 4, Account(5), 2);
    OneChecks(x, memo, 3, Account(4), 1);
    assert CheckFrom(x, memo, 1, Active, 0, 1, 1).0 == Approved;
    assert Plain(x, {}, 4, Active, 2) == Denied;
    assert Plain(x, {}, 3, Active, 1) == Denied by { assert PlainFrom(x, {}, 3, Active, 1, 1, 0) == Denied; }
    assert Plain(x, {}, 2, Active, 1) == Approved by { assert Plain(x, {}, 5, Active, 2) == Approved; }
    assert PlainFrom(x, {}, 1, Active, 0, 1, 1) == Denied by { assert PlainFrom(x, {}, 1, Active, 0, 2, 1) == Denied; }
  }

  /** With the far account first the same authorities are denied, although they are justified. */
  lemma FarThenNear()
    ensures var x := Diamond(3, 2);
            Check(x, {}, 1, Active, 0).0 == Denied && Justified(x, {}, 4, Account(1), Active)
  {
    var x := Diamond(3, 2);
    assert Consider(x, {}, Account(5), Active, 2) == (Denied, false, {});
    OneChecks(x, {}, 4, Account(5), 2);
    OneChecks(x, {}, 2, Account(4), 1);
    assert Check(x, {}, 2, Active, 1) == (Denied, {});
    OneChecks(x, {}, 5, Key(9), 2);
    OneChecks(x, {}, 3, Account(5), 1);
    assert CheckFrom(x, {}, 1, Active, 0, 1, 0).0 == Denied by {
      assert CheckFrom(x, Consider(x, {}, Account(3), Active, 0).2, 1, Active, 0, 2, 1).0 == Denied;
    }
    assert Justified(x, {}, 1, Account(5), Active) by { assert Counts(x, {}, 0, Key(9), Active); }
    OneJustified(x, 1, 4, Account(5));
    MoreIsJustified(x, {}, 1, 2, Account(5), Active);
    OneJustified(x, 2, 2, Account(4));
    OneJustified(x, 2, 3, Account(5));
    var auths := x.AuthorityOf(1, Active).auths;
    assert WeightUpTo(x, {}, 3, auths, 1, Active) == 1;
    assert WeightUpTo(x, {}, 3, auths, 2, Active) == 2;
  }

  lemma OneJustified(x: Context, n: nat, a: nat, id: Id)
    requires IsOne(x, a, id) && Justified(x, {}, n, id, Active)
    ensures Justified(x, {}, n + 1, Account(a), Active)
  {
  }
}
