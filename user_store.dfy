/** The user store of `UserContext.tsx`: the in-memory list with its loading and
    error flags, kept in step with two entries of the browser's local storage. */
module UserStore {
  import opened Wrappers
  import opened Seqs
  import opened Domain

  /** The message of the error thrown when the response is not ok. */
  const FetchErrorMessage: string := "Błąd pobierania danych"

  /** The message of the error `useUsers` throws outside a provider. */
  const NoProviderMessage: string := "useUsers must be used within UserProvider"

  /** What the single GET to the demo endpoint produced: an ok response and its
      decoded body, or a response whose `ok` flag is false. */
  datatype FetchOutcome = Fetched(body: seq<User>) | NotOk

  /** `users.filter(u => u.id !== id)`. */
  function WithoutId(users: seq<User>, id: int): (r: seq<User>)
    ensures |r| <= |users|
    ensures forall u | u in r :: u in users && u.id != id
    ensures forall u | u in users && u.id != id :: u in r
  {
    Filter(users, (u: User) => u.id != id)
  }

  /** The added-users entry after deleting `id`: filtered, and removed entirely
      when nothing is left; an absent entry stays absent. */
  function PrunedAdded(entry: Option<seq<User>>, id: int): (r: Option<seq<User>>)
    ensures entry.None? ==> r.None?
    ensures entry.Some? && WithoutId(entry.value, id) == [] ==> r.None?
    ensures entry.Some? && WithoutId(entry.value, id) != [] ==> r == Some(WithoutId(entry.value, id))
  {
    match entry
    case None => None
    case Some(added) =>
      var updated := WithoutId(added, id);
      if |updated| > 0 then Some(updated) else None
  }

  /** The API-users cache after deleting `id`: rewritten with its filter whenever
      it is present, even when nothing matched; an absent cache stays absent. */
  function PrunedCache(entry: Option<seq<User>>, id: int): (r: Option<seq<User>>)
    ensures r.Some? <==> entry.Some?
    ensures r.Some? ==> r.value == WithoutId(entry.value, id)
  {
    match entry
    case None => None
    case Some(api) => Some(WithoutId(api, id))
  }

  /** No user left after a delete carries the deleted id, in memory or in either entry. */
  lemma DeleteRemovesId(users: seq<User>, added: Option<seq<User>>, cache: Option<seq<User>>, id: int)
    ensures forall u | u in WithoutId(users, id) :: u.id != id
    ensures PrunedAdded(added, id).Some? ==> forall u | u in PrunedAdded(added, id).value :: u.id != id
    ensures PrunedCache(cache, id).Some? ==> forall u | u in PrunedCache(cache, id).value :: u.id != id
  {
  }

  /** The users a delete keeps stay in their relative order. */
  lemma DeleteKeepsOrder(users: seq<User>, id: int)
    ensures IsSubsequence(WithoutId(users, id), users)
  {
    FilterIsSubsequence(users, (u: User) => u.id != id);
  }

  /** Deleting the same id twice leaves the same list and entries as deleting it once. */
  lemma DeleteIdempotent(users: seq<User>, added: Option<seq<User>>, cache: Option<seq<User>>, id: int)
    ensures WithoutId(WithoutId(users, id), id) == WithoutId(users, id)
    ensures PrunedAdded(PrunedAdded(added, id), id) == PrunedAdded(added, id)
    ensures PrunedCache(PrunedCache(cache, id), id) == PrunedCache(cache, id)
  {
    var keep := (u: User) => u.id != id;
    FilterIdempotent(users, keep);
    if added.Some? {
      FilterIdempotent(added.value, keep);
    }
    if cache.Some? {
      FilterIdempotent(cache.value, keep);
    }
  }

  /** A delete keeps the in-memory list equal to the added users followed by the
      cached API users, when it was so before. */
  lemma DeleteKeepsSync(added: Option<seq<User>>, api: seq<User>, id: int)
    ensures WithoutId(added.GetOr([]) + api, id)
         == PrunedAdded(added, id).GetOr([]) + WithoutId(api, id)
  {
    var keep := (u: User) => u.id != id;
    FilterAppend(added.GetOr([]), api, keep);
    if added.None? {
      assert Filter([], keep) == [];
    }
  }

  /** The browser's local storage, restricted to the two entries the store uses.
      Each entry is absent (`None`) or holds a list of users. */
  class LocalStorage {
    /** The entry under the key "limur_users_data": users added through the form, newest first. */
    var added: Option<seq<User>>
    /** The entry under the key "limur_api_users_fetched": the cached response of the demo endpoint. */
    var apiUsers: Option<seq<User>>

    constructor (added: Option<seq<User>>, apiUsers: Option<seq<User>>)
      ensures this.added == added && this.apiUsers == apiUsers
    {
      this.added := added;
      this.apiUsers := apiUsers;
    }
  }

  /** The state a `UserProvider` holds, over the storage it reads and writes. */
  class Store {
    const storage: LocalStorage
    var users: seq<User>
    var loading: bool
    var error: Option<string>

    /** A freshly mounted provider: no users, loading, no error. */
    constructor (storage: LocalStorage)
      ensures this.storage == storage
      ensures users == [] && loading && error == None
    {
      this.storage := storage;
      users := [];
      loading := true;
      error := None;
    }

    /** The in-memory list is the added users followed by the cached API users. */
    ghost predicate Synced()
      reads this, storage
    {
      storage.apiUsers.Some? && users == storage.added.GetOr([]) + storage.apiUsers.value
    }

    /** `fetchUsers`: publishes the added users followed by the API users, taken from
        the cache when it is present and otherwise from `outcome`, which is then cached.
        `requested` tells whether the endpoint was called. A response that is not ok
        sets the error and changes neither the list nor the storage. */
    method FetchUsers(outcome: FetchOutcome) returns (requested: bool)
      modifies this, storage
      ensures requested <==> old(storage.apiUsers).None?
      ensures !loading
      ensures storage.added == old(storage.added)
      ensures old(storage.apiUsers).Some? ==>
        && storage.apiUsers == old(storage.apiUsers)
        && users == old(storage.added).GetOr([]) + old(storage.apiUsers).value
        && error == None
      ensures requested && outcome.Fetched? ==>
        && storage.apiUsers == Some(outcome.body)
        && users == old(storage.added).GetOr([]) + outcome.body
        && error == None
      ensures requested && outcome.NotOk? ==>
        && storage.apiUsers == None
        && users == old(users)
        && error == Some(FetchErrorMessage)
      ensures error == None <==> Synced()
    {
      loading := true;
      var api: seq<User>;
      if storage.apiUsers.Some? {
        requested := false;
        api := storage.apiUsers.value;
      } else {
        requested := true;
        if outcome.NotOk? {
          error := Some(FetchErrorMessage);
          loading := false;
          return;
        }
        api := outcome.body;
        storage.apiUsers := Some(api);
      }
      var added := storage.added.GetOr([]);
      users := added + api;
      error := None;
      loading := false;
    }

    /** `addUser`: prepends `user` to the list and to the added-users entry
        (creating it when absent); the API cache is untouched. */
    method AddUser(user: User)
      modifies this, storage
      ensures users == [user] + old(users)
      ensures storage.added == Some([user] + old(storage.added).GetOr([]))
      ensures storage.apiUsers == old(storage.apiUsers)
      ensures loading == old(loading) && error == old(error)
      ensures old(Synced()) ==> Synced()
    {
      users := [user] + users;
      var added := storage.added.GetOr([]);
      added := [user] + added;
      storage.added := Some(added);
    }

    /** `deleteUser`: filters `id` out of the list and out of both entries. */
    method DeleteUser(id: int)
      modifies this, storage
      ensures users == WithoutId(old(users), id)
      ensures storage.added == PrunedAdded(old(storage.added), id)
      ensures storage.apiUsers == PrunedCache(old(storage.apiUsers), id)
      ensures loading == old(loading) && error == old(error)
      ensures old(Synced()) ==> Synced()
    {
      if Synced() {
        DeleteKeepsSync(storage.added, storage.apiUsers.value, id);
      }
      users := WithoutId(users, id);
      if storage.added.Some? {
        var updated := WithoutId(storage.added.value, id);
        if |updated| > 0 {
          storage.added := Some(updated);
        } else {
          storage.added := None;
        }
      }
      if storage.apiUsers.Some? {
        var updated := WithoutId(storage.apiUsers.value, id);
        storage.apiUsers := Some(updated);
      }
    }
  }

  /** `useUsers`: the store of the enclosing provider, or the error it throws when there is none. */
  function UseUsers(context: Option<Store>): (r: Result<Store, string>)
    ensures r.Ok? <==> context.Some?
    ensures r.Ok? ==> r.value == context.value
    ensures r.Err? ==> r.error == NoProviderMessage
  {
    match context
    case Some(store) => Ok(store)
    case None => Err(NoProviderMessage)
  }

  /** Two page loads over the same storage, each mounting a provider and fetching:
      the second calls the endpoint only when the first neither found a cache nor
      got an ok response. */
  method LoadTwice(storage: LocalStorage, first: FetchOutcome, second: FetchOutcome)
    returns (requestedAgain: bool)
    modifies storage
    ensures requestedAgain <==> old(storage.apiUsers).None? && first.NotOk?
  {
    var store := new Store(storage);
    var requested := store.FetchUsers(first);
    var reloaded := new Store(storage);
    requestedAgain := reloaded.FetchUsers(second);
  }
}
