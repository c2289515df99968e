# limur-users in Dafny

A model of the user-management core of the limur-users React application and
proofs about it:

- `UserContext.tsx`, the provider that owns the user list: `fetchUsers` (API
  users taken from the local-storage cache, or fetched and cached, and published
  after the locally added users), `addUser`, `deleteUser`, and the `useUsers`
  guard. The provider is the class `UserStore.Store`; browser `localStorage` is
  the class `UserStore.LocalStorage`, holding the two entries the provider uses:
  the added users (key `limur_users_data`) and the API-users cache (key
  `limur_api_users_fetched`), each absent (`None`) or present.
- `AddUser.tsx`, the add-user page: the email, zip-code and phone validators,
  `validateForm` and the error map it builds, the user built from the form,
  `handleChange` and `handleSubmit` (class `AddUser.AddUserForm`).
- `Users.tsx`, the users list page: the address search, the name ordering of the
  search result, `toggleSortOrder`, `handleView` and the confirmed
  `handleDelete` (class `UsersPage.UsersView`).

Modules: `Wrappers` (Option, Result), `Seqs` (filter, subsequence, sort of a
copy), `Text` (JavaScript whitespace, `trim`, ASCII `toLowerCase`, `includes`),
`Domain` (the `User` record), `UserStore`, `AddUser`, `UsersPage`.

The network response of `fetchUsers` is a parameter (`FetchOutcome`: a body, or
a response that is not ok), so are the id `Math.random` would pick, the user's
answer to `window.confirm`, and the `localeCompare` comparator.

`deleteUser` follows the code: it filters the id out of the list, out of the
added-users entry (removing the key when nothing is left) and out of the API
cache (rewriting it even when nothing matched), all three unconditionally: both
storage entries are filtered, not only the one that holds the id.

## Model

| member | source | states |
|---|---|---|
| Seqs.Filter | src/components/user/UserContext.tsx:69 | `filter` keeps exactly the elements satisfying the predicate and never lengthens the list |
| Seqs.FilterKeepsAll | src/pages/Users.tsx:21-26 | filtering a list whose every element passes gives the list back |
| Seqs.FilterIdempotent | src/components/user/UserContext.tsx:69 | filtering twice by the same predicate equals filtering once |
| Seqs.FilterAppend | src/components/user/UserContext.tsx:69-87 | filtering a concatenation is concatenating the filtered parts |
| Seqs.FilterCount | src/pages/Users.tsx:21-26 | a filter result holds every occurrence of each kept element and none of a dropped one |
| Seqs.FilterAgrees | src/pages/Users.tsx:21-26 | predicates that agree on every element of a list filter it alike |
| Seqs.FilterIsSubsequence | src/pages/Users.tsx:21-26 | a filter result is an order-preserving subsequence of its input |
| Seqs.Insert | src/pages/Users.tsx:30 | an insertion step adds exactly the one element (multiset) |
| Seqs.InsertKeepsSorted | src/pages/Users.tsx:30 | inserting into a list sorted by a total preorder keeps it sorted |
| Seqs.PrependKeepsSorted | src/pages/Users.tsx:30 | an element `leq` to every element of a sorted list can go in front of it |
| Seqs.SortBy | src/pages/Users.tsx:30-33 | sorting a copy yields a permutation of the input ordered by the comparator |
| Seqs.InsertKeepsTies | src/pages/Users.tsx:30 | an insertion step puts the element before every element tied with it and keeps the order of the tied elements |
| Seqs.SortByStable | src/pages/Users.tsx:30-33 | the sort is stable: elements tied under the comparator keep their relative order |
| Text.TrimStartSpec | src/pages/AddUser.tsx:61 | leading-trim removes a whitespace prefix and leaves nothing or a non-whitespace first character |
| Text.TrimEndSpec | src/pages/AddUser.tsx:61 | trailing-trim removes a whitespace suffix and leaves nothing or a non-whitespace last character |
| Text.TrimSpec | src/pages/AddUser.tsx:61 | `trim()` returns the input minus a whitespace prefix and suffix, with non-whitespace ends |
| Text.BlankIff | src/pages/AddUser.tsx:61-86 | `!s.trim()` holds exactly when every character of `s` is whitespace |
| Text.Lower | src/pages/Users.tsx:23-25 | lowercasing keeps the length, leaves no upper-case letter, turns each `A`-`Z` into the matching `a`-`z` and keeps every other character |
| Text.LowerIdempotent | src/pages/Users.tsx:23-25 | lowercasing a lowercased string changes nothing |
| Text.IncludesIff | src/pages/Users.tsx:23-25 | `includes` finds the needle exactly when it occurs at some index |
| Text.IncludesEmpty | src/pages/Users.tsx:23-25 | the empty string is included in every string |
| UserStore.WithoutId | src/components/user/UserContext.tsx:69 | the filter by id keeps exactly the users with another id, never lengthening the list |
| UserStore.PrunedAdded | src/components/user/UserContext.tsx:71-80 | an absent added entry stays absent; a present one becomes its filter by id, or is removed when that filter is empty |
| UserStore.PrunedCache | src/components/user/UserContext.tsx:82-87 | the API cache stays absent when absent and otherwise becomes its filter by id, even when nothing matched |
| UserStore.DeleteRemovesId | src/components/user/UserContext.tsx:69-87 | after a delete no user with that id remains in the list or in either entry |
| UserStore.DeleteKeepsOrder | src/components/user/UserContext.tsx:69 | the users left after a delete keep their relative order |
| UserStore.DeleteIdempotent | src/components/user/UserContext.tsx:68-88 | deleting the same id twice leaves the list and both entries as deleting it once |
| UserStore.DeleteKeepsSync | src/components/user/UserContext.tsx:68-88 | deleting from the published list agrees with deleting from the added entry and the cache and republishing them |
| UserStore.Store.constructor | src/components/user/UserContext.tsx:20-22 | a new provider has no users, is loading and has no error |
| UserStore.Store.FetchUsers | src/components/user/UserContext.tsx:24-53 | with a cache: no request, users are added ++ cached, no error; otherwise an ok body is cached and published after the added users; a response that is not ok sets the fetch-failure message and changes neither users nor storage; loading ends false; no error exactly when the list equals added ++ cache |
| UserStore.Store.AddUser | src/components/user/UserContext.tsx:59-66 | the user is prepended to the list and to the added entry (created when absent); the cache, loading and error are unchanged; a synced list stays synced |
| UserStore.Store.DeleteUser | src/components/user/UserContext.tsx:68-88 | the list and both entries become their filters by id as above; a synced list stays synced |
| UserStore.UseUsers | src/components/user/UserContext.tsx:102-108 | the provider's value when there is one, otherwise the "must be used within UserProvider" error |
| UserStore.LoadTwice | src/components/user/UserContext.tsx:29-40 | a second page load over the same storage calls the endpoint again only when the first found no cache and got a response that was not ok |
| AddUser.MatchesShapeIff | src/pages/AddUser.tsx:49 | a fixed-shape pattern matches exactly the strings of its length whose characters are in the classes position by position |
| AddUser.AllInIff | src/pages/AddUser.tsx:54 | `[k]*` matches exactly the strings whose every character is in `k` |
| AddUser.ZipcodeAcceptsIff | src/pages/AddUser.tsx:48-51 | the zip codes accepted are exactly `DD-DDD`, `DDDDD`, `DDDD` and upper-digit-upper-whitespace-digit-upper-upper |
| AddUser.InPhoneClass | src/pages/AddUser.tsx:54 | the phone character class holds exactly digits, whitespace, `-`, `+`, `(`, `)` |
| AddUser.PhoneAcceptsIff | src/pages/AddUser.tsx:53-56 | the phones accepted are exactly the strings of length at least 7 made of digits, whitespace, `-`, `+`, `(`, `)` |
| AddUser.IndexOf | src/pages/AddUser.tsx:44 | the index of the first occurrence of a character, or the length when there is none |
| AddUser.EmailAcceptsIff | src/pages/AddUser.tsx:43-46 | the emails accepted are exactly those with no whitespace, exactly one `@`, a non-empty local part and a domain with a `.` that is neither its first nor its last character |
| AddUser.AcceptedEmailMatches | src/pages/AddUser.tsx:43-46 | every accepted email splits as `[^\s@]+@[^\s@]+\.[^\s@]+` at its first `@` |
| AddUser.MatchingEmailAccepted | src/pages/AddUser.tsx:43-46 | every string of the shape `[^\s@]+@[^\s@]+\.[^\s@]+` is accepted |
| AddUser.FormData.With | src/pages/AddUser.tsx:96-99 | `{...prev, [name]: value}` sets the named input and keeps every other |
| AddUser.ErrorsOfFields | src/pages/AddUser.tsx:58-88 | per field: required fields get their "required" message exactly when blank; email, phone and zip code get "required" when blank, else "invalid" when rejected, never both; suite and company name never get one |
| AddUser.AgreesFieldwise | src/pages/AddUser.tsx:58-88 | a map with those per-field entries and no others is the error map |
| AddUser.ContactErrors | src/pages/AddUser.tsx:59-77 | starting from no errors, the name, username, email and phone checks record exactly their messages and nothing for the other fields |
| AddUser.AddressErrors | src/pages/AddUser.tsx:79-88 | the street, city and zip-code checks record their messages and keep every other field's entry |
| AddUser.FormErrors | src/pages/AddUser.tsx:58-88 | the error map of a form, stated per field in terms of blankness and the three validators |
| AddUser.NoErrorsIff | src/pages/AddUser.tsx:89-91 | the error map is empty exactly when no field is blank-required and every checked field is valid |
| AddUser.FormValidIff | src/pages/AddUser.tsx:58-92 | validation finds no error exactly when all seven required inputs are non-blank and email, phone and zip code pass their validators |
| AddUser.NewUser | src/pages/AddUser.tsx:111-132 | the built user has the given id, copies every input untrimmed, has no website, and has a company (without catch-phrase) exactly when the company name is non-empty |
| AddUser.AddUserForm.constructor | src/pages/AddUser.tsx:27-39 | the page starts with every input empty and no errors |
| AddUser.AddUserForm.ValidateForm | src/pages/AddUser.tsx:58-92 | the errors state becomes the error map of the current inputs, and the result is true exactly when that map is empty |
| AddUser.AddUserForm.HandleChange | src/pages/AddUser.tsx:94-106 | the edited input takes the new value; its error is reset to empty only when it was non-empty; all else unchanged |
| AddUser.AddUserForm.HandleSubmit | src/pages/AddUser.tsx:108-134 | the errors become the form's error map; the built user is added to the store exactly when that map is empty; the cache is untouched |
| UsersPage.MatchesAddressIff | src/pages/Users.tsx:20-27 | a user matches exactly when the lowercased search occurs in the lowercased street, city or suite |
| UsersPage.FilteredUsers | src/pages/Users.tsx:20-27 | the search result holds exactly the matching users, each as often as in the list, as an order-preserving subsequence of the list |
| UsersPage.SearchIgnoresCase | src/pages/Users.tsx:20-27 | the search is case-insensitive: lowering the search term first changes no match |
| UsersPage.EmptySearchKeepsAll | src/pages/Users.tsx:20-27 | an empty search keeps the whole list |
| UsersPage.Toggled | src/pages/Users.tsx:49-51 | toggling always changes the order |
| UsersPage.ToggleTwice | src/pages/Users.tsx:49-51 | toggling twice restores the order |
| UsersPage.BeforeIsTotalPreorder | src/pages/Users.tsx:30-33 | a consistent comparator, or its negation, orders users by name as a total preorder |
| UsersPage.SortedUsers | src/pages/Users.tsx:29-35 | the sorted list is a permutation of the search result, non-decreasing by the comparator for `asc` and non-increasing for `desc` |
| UsersPage.SortedUsersStable | src/pages/Users.tsx:29-35 | users whose names compare equal keep their order from the search result, for `asc` and `desc` alike |
| UsersPage.UsersView.constructor | src/pages/Users.tsx:15-18 | the page starts with an empty search, `asc`, no selection and the modal closed |
| UsersPage.UsersView.SortedList | src/pages/Users.tsx:20-35 | the page's `sortedUsers` holds each of the store's users whose address matches the search exactly as often as the store does, and no other user, ordered by name as the sort order says |
| UsersPage.UsersView.SetSearchAddress | src/pages/Users.tsx:69 | the search input's value becomes the search term |
| UsersPage.UsersView.ToggleSortOrder | src/pages/Users.tsx:49-51 | the order becomes the toggled order |
| UsersPage.UsersView.HandleView | src/pages/Users.tsx:44-47 | the user is selected and the modal opened |
| UsersPage.UsersView.HandleDelete | src/pages/Users.tsx:37-42 | on confirmation the store deletes the id and the modal closes; otherwise the store and the modal are unchanged |

## Left out

- The network request, `await` and `response.json()`: the response is the
  `FetchOutcome` parameter of `FetchUsers`.
- JSON `parse`/`stringify`: the storage entries are typed lists; a corrupted
  entry that would make `JSON.parse` throw is not modelled.
- A `fetch` or `response.json()` that rejects (network failure, malformed body)
  and the `'Nieznany błąd'` branch for a non-`Error` rejection: the only failure
  modelled is a response that is not ok, whose error is the fetch-failure message.
- `console.error`, `navigate`, `useEffect`, memoisation, context plumbing and
  rendering: framework mechanics and side effects with no state of the core.
- `Math.random()` for the new id: `HandleSubmit` takes the id as a parameter;
  id collisions are not ruled out.
- `window.confirm`: `HandleDelete` takes the answer as a parameter.
- `submitted`, `showConfirmation`, `handleConfirmation` and
  `handleCancelConfirmation` of the add-user page: confirmation-screen flags and
  navigation only.
- `UserModal.tsx`, `Main.tsx`, `App.tsx`, `Show.tsx`: presentation and routing.
- `src/types.ts` is not part of this model; `Domain.User` carries the fields
  the pages read and write, with the optional website, company and catch-phrase
  as `Option`.
- Text.Lower: ASCII lowercasing only, not Unicode `toLowerCase`.
- Strings are sequences of code points, not UTF-16 code units; the phone
  length bound counts code points.
- UsersPage.SortedUsers: `localeCompare` is an abstract comparator assumed
  consistent (sign flips with the arguments, "not after" is transitive); the
  sort is an insertion sort, stable like `Array.prototype.sort`.
- Store state updates of React are applied at once; the batching and stale
  closures of `setUsers` are not modelled.
