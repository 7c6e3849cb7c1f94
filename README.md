# Users items screen: view-model state reconciliation

This project models the view model behind the users list screen of a small Android app
(`UsersItemsViewModel`). The view model holds one `UsersItemsViewState` made of `users`,
`isLoading` and `error`, and it replaces that state wholesale on every transition. It does
two things:

- **Load.** It loads the user list from the remote source and overlays the `liked` flags
  kept in the local favourites cache. If the remote call throws, it shows the cached
  favourites instead.
- **Toggle.** It flips the `liked` flag of the first user with a given id. Its `map` then
  replaces every record with that id by the flipped first match, not only the first record.
  The toggled list is published first, then the cache is written. A failed write only sets `error` and does not roll the toggle back.

Files:

- `wrappers.dfy`: `Option`, which stands for Kotlin's nullable values.
- `users.dfy` (module `Users`): the `User` record and the pure list computations:
  - `AssociateById` and `Merge` model `mergeWithCachedLikes`.
  - `FindById`, `ReplaceById` and `ToggledUsers` model the `find`/`map` inside
    `toggleUserLike`.
  - Declarative reference predicates (`HasId`, `IsFirstWithId`, `IsLastWithId`,
    `LikedInCache`) say what these computations must produce, and the lemmas connect the two.
- `users_items.dfy` (module `UsersItems`):
  - the view state, the intents, and `getUsers` as `GetUsers`, which also records which
    path was taken (`Fetched` or `Degraded`);
  - two step predicates, `LoadStep` and `ToggleStep`, that say what one load and one
    toggle do;
  - the class `UsersItemsViewModel`, with a mutable `state` field and the methods
    `HandleIntent`, `LoadUsers` and `ToggleLike`;
  - a ghost `trace` field on the class that records every published state and every cache
    write in order. It is used to state that the optimistic state is published before the
    save or delete call.

The repository is not modelled; its answers are parameters:

- The remote fetch is `Some(list)`, or `None` when `getData` throws.
- The favourites read returns a list.
- A save or delete call is `Stored`, or `Failed(message)`. The message is an `Option`
  because a Kotlin exception's message may be null.

A `User` keeps `id` and `liked`. Every other display attribute is collapsed into one opaque
`details` string, which the view model copies but never inspects. `UsersItemsViewState` is
defined outside the view model; its defaults are taken as no users, not loading and no
error.

A merged user's flag is copied from the last cached record with its id (`associateBy`), and
is false when there is none. This equals "the id is cached" only when every cached record is
liked, which `MergeWithFavourites` proves.

## Model

| member | source | states |
|---|---|---|
| Users.AssociateByIdAt | app/src/main/java/com/example/usersapp/ui/theme/pages/itemscreenpage/UsersItemsViewModel.kt:74 | the `associateBy { it.id }` map holds exactly the ids of the cached list, each bound to the LAST cached record with that id |
| Users.AssociateById | app/src/main/java/com/example/usersapp/ui/theme/pages/itemscreenpage/UsersItemsViewModel.kt:74 | every cached record's id is a key of the `associateBy` map, every key is the id of some cached record, and each key is bound to a record carrying that id |
| Users.AssociateByIdLiked | app/src/main/java/com/example/usersapp/ui/theme/pages/itemscreenpage/UsersItemsViewModel.kt:74-76 | `cachedMap[id]?.liked ?: false` is the flag of the last cached record with `id`, and false when no cached record has it |
| Users.Merge | app/src/main/java/com/example/usersapp/ui/theme/pages/itemscreenpage/UsersItemsViewModel.kt:73-77 | the merge keeps the remote list's length and order; the i-th result is the i-th remote user with only `liked` replaced by the cache's flag for its id; every result user's id comes from the remote list, so cache-only users never appear |
| Users.MergeIdempotent | app/src/main/java/com/example/usersapp/ui/theme/pages/itemscreenpage/UsersItemsViewModel.kt:73-77 | merging an already merged list with the same cache changes nothing |
| Users.MergeWithFavourites | app/src/main/java/com/example/usersapp/ui/theme/pages/itemscreenpage/UsersItemsViewModel.kt:73-77 | when every cached record is liked, a merged user is liked if and only if some cached record carries its id |
| Users.MergeWithEmptyCache | app/src/main/java/com/example/usersapp/ui/theme/pages/itemscreenpage/UsersItemsViewModel.kt:76 | with no cached records every merged user is unliked (the `?: false` default) |
| Users.Flip | app/src/main/java/com/example/usersapp/ui/theme/pages/itemscreenpage/UsersItemsViewModel.kt:89 | the updated user keeps its id and other fields, and its `liked` flag is the opposite of the old one |
| Users.ReplaceById | app/src/main/java/com/example/usersapp/ui/theme/pages/itemscreenpage/UsersItemsViewModel.kt:90 | the `map` keeps the length; records with another id stay in place; every record with the id becomes the updated user; the ids of the list are unchanged when the updated user carries that id |
| Users.FindById | app/src/main/java/com/example/usersapp/ui/theme/pages/itemscreenpage/UsersItemsViewModel.kt:87 | `find` returns nothing if and only if no user has the id, and otherwise the user at the first position with that id |
| Users.ToggledUsers | app/src/main/java/com/example/usersapp/ui/theme/pages/itemscreenpage/UsersItemsViewModel.kt:87-90 | no new list if and only if the id is absent; otherwise the same length and order, every user with another id unchanged, and every user with the id replaced by the first match with `liked` negated |
| Users.ToggleTwice | app/src/main/java/com/example/usersapp/ui/theme/pages/itemscreenpage/UsersItemsViewModel.kt:87-90 | toggling an id twice sets every record with the id to the first such record, and gives back the original list when ids are distinct |
| UsersItems.GetUsers | app/src/main/java/com/example/usersapp/ui/theme/pages/itemscreenpage/UsersItemsViewModel.kt:59-68 | the remote path is taken exactly when the remote call succeeds; it gives the remote users in order with the cache's flag for each id; when the remote call throws, the result is exactly the cached favourites |
| UsersItems.PersistCall | app/src/main/java/com/example/usersapp/ui/theme/pages/itemscreenpage/UsersItemsViewModel.kt:94-98 | the cache call for the updated user is a save when the user is now liked and a delete otherwise |
| UsersItems.LoadStepEffect | app/src/main/java/com/example/usersapp/ui/theme/pages/itemscreenpage/UsersItemsViewModel.kt:49-68 | a load first publishes the old users and error with `isLoading` true; it ends with `isLoading` false and `error` unchanged; the users are the remote list with the cached flags when the fetch succeeds and exactly the cached favourites when it throws |
| UsersItems.LoadTwice | app/src/main/java/com/example/usersapp/ui/theme/pages/itemscreenpage/UsersItemsViewModel.kt:49-68 | loading again with unchanged remote and cache data ends in the same state |
| UsersItems.ToggleStepEffect | app/src/main/java/com/example/usersapp/ui/theme/pages/itemscreenpage/UsersItemsViewModel.kt:83-103 | an absent id leaves the state unchanged and makes no cache call; otherwise the toggled list is published first, then exactly one save (if the user is now liked) or one delete (if not) of the updated user, which is in the new list; `isLoading` is kept; `error` is kept on success and becomes the failure message on failure, without rolling the toggle back, and the error state is published last; there are exactly 2 events on success and 3 on failure |
| UsersItems.ToggleTwiceRestores | app/src/main/java/com/example/usersapp/ui/theme/pages/itemscreenpage/UsersItemsViewModel.kt:83-103 | two successful toggles of the same id on a list with distinct ids give back the original state |
| UsersItems.MergeExample | app/src/main/java/com/example/usersapp/ui/theme/pages/itemscreenpage/UsersItemsViewModel.kt:73-77 | remote users 1 and 2 with only user 2 cached as liked merge to user 1 unliked and user 2 liked |
| UsersItems.UsersItemsViewModel.constructor | app/src/main/java/com/example/usersapp/ui/theme/pages/itemscreenpage/UsersItemsViewModel.kt:22-34 | the view model starts from the default state and performs one load step from it, as `init` does |
| UsersItems.UsersItemsViewModel.HandleIntent | app/src/main/java/com/example/usersapp/ui/theme/pages/itemscreenpage/UsersItemsViewModel.kt:39-44 | a fetch intent performs one load step and a toggle intent one toggle step for its user id; earlier events are kept |
| UsersItems.UsersItemsViewModel.LoadUsers | app/src/main/java/com/example/usersapp/ui/theme/pages/itemscreenpage/UsersItemsViewModel.kt:49-68 | the new state and the events appended to the trace are exactly one load step from the old state |
| UsersItems.UsersItemsViewModel.ToggleLike | app/src/main/java/com/example/usersapp/ui/theme/pages/itemscreenpage/UsersItemsViewModel.kt:83-103 | the new state and the events appended to the trace are exactly one toggle step from the old state for the given id and persistence outcome |

## Left out

- Coroutines and threading: `viewModelScope.launch`, `withContext(Dispatchers.IO)` and
  cancellation on teardown. Each operation is one sequential method, so races between
  in-flight loads and toggles (last write wins) are not modelled.
- The `CoroutineExceptionHandler` that prints the stack trace and logs, and the log line in
  `getUsers`. These are logging only.
- `StateFlow` subscription and delivery. The state is a plain field, and the ghost trace
  lists what was published. Conflation of equal values by `StateFlow` is not modelled.
- The repository implementations (`getData`, `getFavourites`, `saveFavourites`,
  `deleteFavouriteUser`), the network service and the database. They are not part of this
  model; their results are parameters.
- Failures of the favourites read. Both reads of the cache inside `getUsers` are taken to
  return the same list without throwing. So two paths are not modelled: a throw in the
  try-block read, which sends the load to the fallback, and a throw in the fallback read,
  which leaves `isLoading` set and the users as they were.
- The Android `ViewModel` lifecycle and the `UsersItemsIntent` sealed class beyond the
  two-way dispatch.
