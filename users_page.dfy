/** The users list page of `Users.tsx`: the address search, the name ordering of
    the filtered list, and the page state with its sort toggle and guarded delete. */
module UsersPage {
  import opened Wrappers
  import opened Seqs
  import opened Text
  import opened Domain
  import opened UserStore

  // ----- The address filter -----

  /** `needle` occurs somewhere in `hay`. */
  ghost predicate IsSubstring(needle: string, hay: string) {
    exists i :: OccursAt(hay, needle, i)
  }

  /** The search term, lowercased, is included in the lowercased street, city or suite. */
  predicate MatchesAddress(user: User, search: string) {
    || Includes(Lower(user.address.street), Lower(search))
    || Includes(Lower(user.address.city), Lower(search))
    || Includes(Lower(user.address.suite), Lower(search))
  }

  /** The address search is a case-insensitive substring test on the three address parts. */
  lemma MatchesAddressIff(user: User, search: string)
    ensures MatchesAddress(user, search) <==>
      || IsSubstring(Lower(search), Lower(user.address.street))
      || IsSubstring(Lower(search), Lower(user.address.city))
      || IsSubstring(Lower(search), Lower(user.address.suite))
  {
    IncludesIff(Lower(user.address.street), Lower(search));
    IncludesIff(Lower(user.address.city), Lower(search));
    IncludesIff(Lower(user.address.suite), Lower(search));
  }

  /** `filteredUsers`: the users whose address matches the search, in list order. */
  function FilteredUsers(users: seq<User>, search: string): (r: seq<User>)
    ensures forall u | u in r :: u in users && MatchesAddress(u, search)
    ensures forall u | u in users && MatchesAddress(u, search) :: u in r
    ensures IsSubsequence(r, users)
    ensures forall u :: multiset(r)[u] == if MatchesAddress(u, search) then multiset(users)[u] else 0
  {
    FilterIsSubsequence(users, u => MatchesAddress(u, search));
    FilterCount(users, u => MatchesAddress(u, search));
    Filter(users, u => MatchesAddress(u, search))
  }

  /** The search is case-insensitive: lowering it first changes no match. */
  lemma SearchIgnoresCase(user: User, search: string)
    ensures MatchesAddress(user, Lower(search)) <==> MatchesAddress(user, search)
  {
    LowerIdempotent(search);
  }

  /** An empty search keeps every user, in order. */
  lemma EmptySearchKeepsAll(users: seq<User>)
    ensures FilteredUsers(users, "") == users
  {
    assert Lower("") == "";
    forall u | u in users ensures MatchesAddress(u, "") {
      IncludesEmpty(Lower(u.address.street));
    }
    FilterKeepsAll(users, u => MatchesAddress(u, ""));
  }

  // ----- The name ordering -----

  datatype SortOrder = Asc | Desc

  /** `toggleSortOrder`'s new order. */
  function Toggled(order: SortOrder): (r: SortOrder)
    ensures r != order
  {
    match order
    case Asc => Desc
    case Desc => Asc
  }

  /** Toggling twice restores the order. */
  lemma ToggleTwice(order: SortOrder)
    ensures Toggled(Toggled(order)) == order
  {
  }

  /** What `Array.prototype.sort` requires of a comparator such as `localeCompare`:
      swapping the arguments flips the sign, and "not after" is transitive. */
  ghost predicate Comparator(compare: (string, string) -> int) {
    && (forall a, b :: compare(a, b) <= 0 <==> compare(b, a) >= 0)
    && (forall a, b, c :: compare(a, b) <= 0 && compare(b, c) <= 0 ==> compare(a, c) <= 0)
  }

  /** `a` may come before `b`: the name comparison for `Asc`, its negation for `Desc`. */
  function Before(order: SortOrder, compare: (string, string) -> int): (User, User) -> bool {
    (a: User, b: User) =>
      if order == Asc then compare(a.name, b.name) <= 0 else -compare(a.name, b.name) <= 0
  }

  /** A consistent comparator orders users by name as a total preorder, either way round. */
  lemma BeforeIsTotalPreorder(order: SortOrder, compare: (string, string) -> int)
    requires Comparator(compare)
    ensures TotalPreorder(Before(order, compare))
  {
    var leq := Before(order, compare);
    forall a: User, b: User ensures leq(a, b) || leq(b, a) {
      assert compare(a.name, b.name) <= 0 <==> compare(b.name, a.name) >= 0;
    }
    forall a: User, b: User, c: User | leq(a, b) && leq(b, c) ensures leq(a, c) {
      if order == Asc {
        assert compare(a.name, b.name) <= 0 && compare(b.name, c.name) <= 0;
      } else {
        assert compare(a.name, b.name) >= 0 && compare(b.name, c.name) >= 0;
        assert compare(b.name, a.name) <= 0 && compare(c.name, b.name) <= 0;
        assert compare(c.name, a.name) <= 0;
        assert compare(a.name, c.name) >= 0;
      }
    }
  }

  /** `sortedUsers`: a permutation of `users`, ascending by name for `Asc` and
      descending for `Desc`. */
  function SortedUsers(users: seq<User>, order: SortOrder, compare: (string, string) -> int): (r: seq<User>)
    requires Comparator(compare)
    ensures multiset(r) == multiset(users)
    ensures order == Asc ==> forall i, j | 0 <= i < j < |r| :: compare(r[i].name, r[j].name) <= 0
    ensures order == Desc ==> forall i, j | 0 <= i < j < |r| :: compare(r[i].name, r[j].name) >= 0
  {
    BeforeIsTotalPreorder(order, compare);
    var r := SortBy(users, Before(order, compare));
    assert forall i, j | 0 <= i < j < |r| :: Before(order, compare)(r[i], r[j]);
    r
  }

  /** The users whose name compares equal to `u`'s. */
  function SameName(compare: (string, string) -> int, u: User): User -> bool {
    (v: User) => compare(v.name, u.name) == 0
  }

  /** The sort is stable: users whose names compare equal keep their order in the
      search result, whichever way the list is sorted. */
  lemma SortedUsersStable(users: seq<User>, order: SortOrder, compare: (string, string) -> int, u: User)
    requires Comparator(compare)
    ensures Filter(SortedUsers(users, order, compare), SameName(compare, u)) == Filter(users, SameName(compare, u))
  {
    var leq := Before(order, compare);
    BeforeIsTotalPreorder(order, compare);
    var r := SortBy(users, leq);
    assert SortedUsers(users, order, compare) == r;
    SortByStable(users, leq, u);
    forall v | true ensures TiedWith(leq, u)(v) == SameName(compare, u)(v) {
      assert compare(v.name, u.name) <= 0 <==> compare(u.name, v.name) >= 0;
    }
    assert forall v | v in r :: v in multiset(users);
    FilterAgrees(r, TiedWith(leq, u), SameName(compare, u));
    FilterAgrees(users, TiedWith(leq, u), SameName(compare, u));
  }

  // ----- The page -----

  /** The state of the users page over the provider's store. */
  class UsersView {
    const store: Store
    var searchAddress: string
    var sortOrder: SortOrder
    var selectedUser: Option<User>
    var showModal: bool

    constructor (store: Store)
      ensures this.store == store
      ensures searchAddress == "" && sortOrder == Asc && selectedUser == None && !showModal
    {
      this.store := store;
      searchAddress := "";
      sortOrder := Asc;
      selectedUser := None;
      showModal := false;
    }

    /** The page's `sortedUsers`: the store's users whose address matches the
        search, each as often as in the store, in the current name order. */
    function SortedList(compare: (string, string) -> int): (r: seq<User>)
      reads this, store
      requires Comparator(compare)
      ensures forall u :: multiset(r)[u] == if MatchesAddress(u, searchAddress) then multiset(store.users)[u] else 0
      ensures sortOrder == Asc ==> forall i, j | 0 <= i < j < |r| :: compare(r[i].name, r[j].name) <= 0
      ensures sortOrder == Desc ==> forall i, j | 0 <= i < j < |r| :: compare(r[i].name, r[j].name) >= 0
    {
      SortedUsers(FilteredUsers(store.users, searchAddress), sortOrder, compare)
    }

    /** The search input's change handler. */
    method SetSearchAddress(search: string)
      modifies this`searchAddress
      ensures searchAddress == search
    {
      searchAddress := search;
    }

    /** `toggleSortOrder`: `Asc` becomes `Desc` and back. */
    method ToggleSortOrder()
      modifies this`sortOrder
      ensures sortOrder == Toggled(old(sortOrder))
    {
      if sortOrder == Asc {
        sortOrder := Desc;
      } else {
        sortOrder := Asc;
      }
    }

    /** `handleView`: selects `user` and opens the modal. */
    method HandleView(user: User)
      modifies this`selectedUser, this`showModal
      ensures selectedUser == Some(user) && showModal
    {
      selectedUser := Some(user);
      showModal := true;
    }

    /** `handleDelete`: when the user confirms, deletes `id` from the store and closes
        the modal; otherwise changes nothing. */
    method HandleDelete(id: int, confirmed: bool)
      modifies this`showModal, store, store.storage
      ensures confirmed ==>
        && store.users == WithoutId(old(store.users), id)
        && store.storage.added == PrunedAdded(old(store.storage.added), id)
        && store.storage.apiUsers == PrunedCache(old(store.storage.apiUsers), id)
        && !showModal
      ensures !confirmed ==>
        && store.users == old(store.users)
        && store.storage.added == old(store.storage.added)
        && store.storage.apiUsers == old(store.storage.apiUsers)
        && showModal == old(showModal)
      ensures store.loading == old(store.loading) && store.error == old(store.error)
    {
      if confirmed {
        store.DeleteUser(id);
        showModal := false;
      }
    }
  }
}
