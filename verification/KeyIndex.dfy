/**
 The index from addresses to the accounts that use them. Several key ids may share one address,
 so an update first takes away the addresses of the keys that an account lost, and then adds
 those of all the keys that it has.
 */
module KeyIndex {

  type AccountId = nat
  type KeyId = nat
  type Address = nat

  datatype ObjectId = AccountObject(account: AccountId) | KeyObject(key: KeyId)

  datatype Account = Account(memoKey: KeyId, owner: set<ObjectId>, active: set<ObjectId>)

  /** Key objects never change, and are never removed. */
  datatype Registry = Registry(
    keys: map<KeyId, Address>, accounts: map<AccountId, Account>, index: map<Address, set<AccountId>>)

  /** `get_keys_for_account` */
  function KeysOf(a: Account): set<KeyId> {
    {a.memoKey} + (set o <- a.active | o.KeyObject? :: o.key) + (set o <- a.owner | o.KeyObject? :: o.key)
  }

  ghost predicate KnownKeys(keys: map<KeyId, Address>, a: Account) {
    KeysOf(a) <= keys.Keys
  }

  function AddressesOf(keys: map<KeyId, Address>, ks: set<KeyId>): set<Address> {
    set k <- ks | k in keys :: keys[k]
  }

  function Users(index: map<Address, set<AccountId>>, address: Address): set<AccountId> {
    if address in index then index[address] else {}
  }

  /** The mappings of the account to these addresses are added, or taken away. */
  function Added(index: map<Address, set<AccountId>>, addresses: set<Address>,
                 id: AccountId): map<Address, set<AccountId>> {
    map x | x in index.Keys + addresses :: if x in addresses then Users(index, x) + {id} else index[x]
  }

  function Taken(index: map<Address, set<AccountId>>, addresses: set<Address>,
                 id: AccountId): map<Address, set<AccountId>> {
    map x <- index :: if x in addresses then index[x] - {id} else index[x]
  }

  lemma AddedOne(index: map<Address, set<AccountId>>, done: set<Address>, x: Address, id: AccountId)
    ensures var next := Added(index, done, id); Added(index, done + {x}, id) == next[x := Users(next, x) + {id}]
  {
  }

  lemma TakenOne(index: map<Address, set<AccountId>>, done: set<Address>, x: Address, id: AccountId)
    requires x in index
    ensures var next := Taken(index, done, id);
            x in next && Taken(index, done + {x}, id) == next[x := next[x] - {id}]
  {
    assert index[x] - {id} - {id} == index[x] - {id};
  }

  lemma AddressesOfOne(keys: map<KeyId, Address>, done: set<KeyId>, k: KeyId)
    requires k in keys
    ensures AddressesOf(keys, done + {k}) == AddressesOf(keys, done) + {keys[k]}
  {
  }

  lemma NothingAdded(index: map<Address, set<AccountId>>, id: AccountId)
    ensures Added(index, {}, id) == index && Taken(index, {}, id) == index
  {
  }

  // ----- the operations -----

  function Created(r: Registry, id: AccountId, a: Account): Registry {
    r.(accounts := r.accounts[id := a], index := Added(r.index, AddressesOf(r.keys, KeysOf(a)), id))
  }

  function Updated(r: Registry, id: AccountId, a: Account): Registry
    requires id in r.accounts
  {
    var (before, after) := (KeysOf(r.accounts[id]), KeysOf(a));
    var rest := Taken(r.index, AddressesOf(r.keys, before - after), id);
    r.(accounts := r.accounts[id := a], index := Added(rest, AddressesOf(r.keys, after), id))
  }

  function KeyCreated(r: Registry, k: KeyId, address: Address): Registry {
    r.(keys := r.keys[k := address])
  }

  // ----- the index is right -----

  /** An address is mapped to exactly the accounts of which it is the address of a memo, owner or active key. */
  ghost predicate Agrees(r: Registry) {
    forall x, id :: id in Users(r.index, x) <==> id in r.accounts && x in AddressesOf(r.keys, KeysOf(r.accounts[id]))
  }

  ghost predicate Valid(r: Registry) {
    Agrees(r) && forall id <- r.accounts :: KnownKeys(r.keys, r.accounts[id])
  }

  lemma CreateKeepsValid(r: Registry, id: AccountId, a: Account)
    requires Valid(r) && id !in r.accounts && KnownKeys(r.keys, a)
    ensures Valid(Created(r, id, a))
  {
    hide KeysOf;
    var s := Created(r, id, a);
    forall x, i
      ensures i in Users(s.index, x) <==> i in s.accounts && x in AddressesOf(s.keys, KeysOf(s.accounts[i]))
    {
      assert i in Users(r.index, x) <==> i in r.accounts && x in AddressesOf(r.keys, KeysOf(r.accounts[i]));
    }
  }

  /** Also when only some of the keys that share an address are lost. */
  lemma UpdateKeepsValid(r: Registry, id: AccountId, a: Account)
    requires Valid(r) && id in r.accounts && KnownKeys(r.keys, a)
    ensures Valid(Updated(r, id, a))
  {
    hide KeysOf;
    var s := Updated(r, id, a);
    forall x, i
      ensures i in Users(s.index, x) <==> i in s.accounts && x in AddressesOf(s.keys, KeysOf(s.accounts[i]))
    {
      assert i in Users(r.index, x) <==> i in r.accounts && x in AddressesOf(r.keys, KeysOf(r.accounts[i]));
    }
  }

  /** The address of every key that an account has is in the index, so that of a lost key is found there. */
  lemma KeysAreFound(r: Registry, id: AccountId, k: KeyId)
    requires Valid(r) && id in r.accounts && k in KeysOf(r.accounts[id])
    ensures k in r.keys && r.keys[k] in r.index
  {
    hide KeysOf;
    assert r.keys[k] in AddressesOf(r.keys, KeysOf(r.accounts[id]));
    assert id in Users(r.index, r.keys[k]);
  }

  lemma KeyKeepsValid(r: Registry, k: KeyId, address: Address)
    requires Valid(r) && k !in r.keys
    ensures Valid(KeyCreated(r, k, address))
  {
  }

  /** The account uses a key, in any of the three places. */
  predicate Uses(a: Account, k: KeyId) {
    k == a.memoKey || KeyObject(k) in a.owner || KeyObject(k) in a.active
  }

  lemma KeysAreUsed(a: Account, k: KeyId)
    ensures k in KeysOf(a) <==> Uses(a, k)
  {
    if KeyObject(k) in a.owner { assert KeyObject(k).key == k; }
    if KeyObject(k) in a.active { assert KeyObject(k).key == k; }
  }

  /** So the index gives for an address exactly the accounts that use a key with that address. */
  lemma IndexFindsUsers(r: Registry, x: Address, id: AccountId)
    requires Valid(r)
    ensures x in r.index && id in r.index[x] <==>
              id in r.accounts && exists k :: k in r.keys && r.keys[k] == x && Uses(r.accounts[id], k)
  {
    hide KeysOf, Uses;
    if id in r.accounts {
      forall k
        ensures k in KeysOf(r.accounts[id]) <==> Uses(r.accounts[id], k)
      {
        KeysAreUsed(r.accounts[id], k);
      }
    }
    assert id in Users(r.index, x) <==> x in r.index && id in r.index[x];
    assert id in Users(r.index, x) <==> id in r.accounts && x in AddressesOf(r.keys, KeysOf(r.accounts[id]));
  }

  // ----- runs -----

  datatype Op =
    | CreateKey(key: KeyId, address: Address)
    | CreateAccount(id: AccountId, account: Account)
    | UpdateAccount(id: AccountId, account: Account)

  /** Ids are new, and operations that name unknown keys or accounts fail. */
  function Apply(r: Registry, op: Op): Registry {
    match op
    case CreateKey(k, address) => if k in r.keys then r else KeyCreated(r, k, address)
    case CreateAccount(id, a) => if id in r.accounts || !(KeysOf(a) <= r.keys.Keys) then r else Created(r, id, a)
    case UpdateAccount(id, a) => if id !in r.accounts || !(KeysOf(a) <= r.keys.Keys) then r else Updated(r, id, a)
  }

  /** What each operation does to keys and accounts: it goes through when ids are new or known, and all keys are. */
  lemma OpIsApplied(r: Registry, op: Op)
    ensures var s := Apply(r, op);
            match op
            case CreateKey(k, address) =>
              s.accounts == r.accounts && s.keys == (if k in r.keys then r.keys else r.keys[k := address])
            case CreateAccount(id, a) =>
              s.keys == r.keys
              && s.accounts == (if id !in r.accounts && (forall k :: Uses(a, k) ==> k in r.keys)
                                then r.accounts[id := a] else r.accounts)
            case UpdateAccount(id, a) =>
              s.keys == r.keys
              && s.accounts == (if id in r.accounts && (forall k :: Uses(a, k) ==> k in r.keys)
                                then r.accounts[id := a] else r.accounts)
  {
    hide KeysOf, Uses;
    if !op.CreateKey? {
      forall k
        ensures k in KeysOf(op.account) <==> Uses(op.account, k)
      {
        KeysAreUsed(op.account, k);
      }
    }
  }

  function Run(r: Registry, ops: seq<Op>): Registry
    decreases |ops|
  {
    if ops == [] then r else Run(Apply(r, ops[0]), ops[1..])
  }

  lemma {:induction false} IndexStaysRight(r: Registry, ops: seq<Op>)
    requires Valid(r)
    ensures Valid(Run(r, ops))
    decreases |ops|
  {
    hide Valid, Created, Updated, KeyCreated, KeysOf;
    if ops == [] {
    } else {
      match ops[0] {
        case CreateKey(k, address) => if k !in r.keys { KeyKeepsValid(r, k, address); }
        case CreateAccount(id, a) => if id !in r.accounts && KeysOf(a) <= r.keys.Keys { CreateKeepsValid(r, id, a); }
        case UpdateAccount(id, a) => if id in r.accounts && KeysOf(a) <= r.keys.Keys { UpdateKeepsValid(r, id, a); }
      }
      IndexStaysRight(Apply(r, ops[0]), ops[1..]);
    }
  }
}
