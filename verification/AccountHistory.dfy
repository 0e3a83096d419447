/** The plugin that observes account operations, and keeps the index in step with them. */
module AccountHistory {
  import opened KeyIndex

  class AccountHistoryPlugin {
    var keys: map<KeyId, Address>
    var accounts: map<AccountId, Account>
    var index: map<Address, set<AccountId>>
    var preAccountKeys: set<KeyId>

    function State(): Registry
      reads this
    {
      Registry(keys, accounts, index)
    }

    constructor ()
      ensures State() == Registry(map[], map[], map[]) && Valid(State())
    {
      keys, accounts, index, preAccountKeys := map[], map[], map[], {};
    }

    method IndexAccountKeys(id: AccountId)
      requires id in accounts && KnownKeys(keys, accounts[id])
      modifies `index
      ensures index == Added(old(index), AddressesOf(keys, KeysOf(accounts[id])), id)
    {
      hide Added, KeysOf, AddressesOf;
      var addresses := AddressesOf(keys, KeysOf(accounts[id]));
      var done := {};
      NothingAdded(index, id);
      while addresses - done != {}
        invariant done <= addresses && index == Added(old(index), done, id)
        decreases addresses - done
      {
        var x :| x in addresses - done;
        AddedOne(old(index), done, x, id);
        assert {} + {id} == {id};
        if x !in index {
          index := index[x := {id}];
        } else {
          index := index[x := index[x] + {id}];
        }
        done := done + {x};
      }
      AllDone(addresses, done);
    }

    method CreateAccount(id: AccountId, a: Account)
      requires Valid(State()) && id !in accounts && KnownKeys(keys, a)
      modifies `accounts, `index
      ensures State() == Created(old(State()), id, a) && Valid(State())
    {
      hide Valid, KeysOf;
      CreateKeepsValid(State(), id, a);
      accounts := accounts[id := a];
      IndexAccountKeys(id);
    }

    /** An update of an account, between the hooks before and after it. */
    method UpdateAccount(id: AccountId, a: Account)
      requires Valid(State()) && id in accounts && KnownKeys(keys, a)
      modifies this
      ensures State() == Updated(old(State()), id, a) && Valid(State())
    {
      hide Valid, KeysOf;
      UpdateKeepsValid(State(), id, a);
      preAccountKeys := KeysOf(accounts[id]);
      FoundKeys(State(), id, preAccountKeys);
      accounts := accounts[id := a];
      PostEvaluate(id);
    }

    method PostEvaluate(id: AccountId)
      requires id in accounts && KnownKeys(keys, accounts[id])
      requires forall k <- preAccountKeys :: k in keys && keys[k] in index
      modifies `index
      ensures index == Added(Taken(old(index), AddressesOf(keys, preAccountKeys - KeysOf(accounts[id])), id),
                             AddressesOf(keys, KeysOf(accounts[id])), id)
    {
      hide KeysOf, KnownKeys, Taken, Added, AddressesOf;
      var removed := preAccountKeys - KeysOf(accounts[id]);
      var done := {};
      NothingTaken(keys, index, id);
      while removed - done != {}
        invariant done <= removed && index == Taken(old(index), AddressesOf(keys, done), id)
        decreases removed - done
      {
        var k :| k in removed - done;
        AddressesOfOne(keys, done, k);
        TakenOne(old(index), AddressesOf(keys, done), keys[k], id);
        assert keys[k] in index;
        index := index[keys[k] := index[keys[k]] - {id}];
        done := done + {k};
      }
      AllDone(removed, done);
      IndexAccountKeys(id);
    }
  }

  lemma AllDone(all: set<nat>, done: set<nat>)
    requires done <= all && all - done == {}
    ensures done == all
  {
    forall x <- all
      ensures x in done
    {
      assert x !in all - done;
    }
  }

  lemma NothingTaken(keys: map<KeyId, Address>, index: map<Address, set<AccountId>>, id: AccountId)
    ensures Taken(index, AddressesOf(keys, {}), id) == index
  {
  }

  lemma FoundKeys(r: Registry, id: AccountId, ks: set<KeyId>)
    requires Valid(r) && id in r.accounts && ks == KeysOf(r.accounts[id])
    ensures forall k <- ks :: k in r.keys && r.keys[k] in r.index
  {
    hide Valid, KeysOf;
    forall k <- ks
      ensures k in r.keys && r.keys[k] in r.index
    {
      KeysAreFound(r, id, k);
    }
  }
}
