/**
 * The items screen's view model: one view state replaced wholesale on every
 * transition, a load that fetches the remote list and falls back to the cached
 * favourites, and an optimistic like toggle followed by a cache write.
 *
 * The repository is not modelled: what it returns is passed in. A remote fetch is
 * `Some(list)` or `None` when it throws; the favourites read always yields a
 * list; a persistence call is `Stored` or `Failed` with the exception's message.
 */
module UsersItems {
  import opened Wrappers
  import opened Users

  /** `UsersItemsViewState`: the list on screen, the loading flag, the error text. */
  datatype ViewState = ViewState(users: seq<User>, isLoading: bool, error: Option<string>)

  /** The default view state: no users, not loading, no error. */
  const InitialState := ViewState([], false, None)

  /** `UsersItemsIntent`: refresh, or toggle the like of the user with an id. */
  datatype Intent = FetchUsers | ToggleLikeUser(userId: int)

  /** Which path `getUsers` took: the merged remote list, or the cache alone. */
  datatype Fetch = Fetched(users: seq<User>) | Degraded(users: seq<User>)

  /** Outcome of `saveFavourites` / `deleteFavouriteUser`; a Kotlin exception's
      message may be null. */
  datatype Persisted = Stored | Failed(message: Option<string>)

  /** What the view model does that others can observe, in order: a new state
      published to the screen, or a call that writes the cache. */
  datatype Event = Published(state: ViewState) | SaveFavourite(user: User) | DeleteFavourite(user: User)

  /** The list a load installs (`getUsers`): when the remote call succeeds, the
      remote users in order, each with the flag the cache holds for its id; when
      it throws, exactly the cached favourites. */
  function GetUsers(remote: Option<seq<User>>, favourites: seq<User>): (fetched: Fetch)
    ensures fetched.Fetched? <==> remote.Some?
    ensures remote.Some? ==>
              && |fetched.users| == |remote.value|
              && forall i :: 0 <= i < |remote.value| ==>
                   fetched.users[i] == remote.value[i].(liked := LikedInCache(favourites, remote.value[i].id))
    ensures remote.None? ==> fetched.users == favourites
  {
    match remote
    case Some(apiUsers) => Fetched(Merge(apiUsers, favourites))
    case None => Degraded(favourites)
  }

  /** The cache call a toggle makes for the updated user: save when it is now
      liked, delete otherwise. */
  function PersistCall(updated: User): (call: Event)
    ensures (call.SaveFavourite? || call.DeleteFavourite?) && call.user == updated
    ensures call.SaveFavourite? <==> updated.liked
  {
    if updated.liked then SaveFavourite(updated) else DeleteFavourite(updated)
  }

  /** `loadUsers` from `before`: it publishes `before` with `isLoading` set, then
      `after`, whose users are what the fetch produced, with `isLoading` cleared
      and `error` untouched. */
  ghost predicate LoadStep(before: ViewState, remote: Option<seq<User>>, favourites: seq<User>,
                           after: ViewState, events: seq<Event>)
  {
    var loading := before.(isLoading := true);
    && after == loading.(users := GetUsers(remote, favourites).users, isLoading := false)
    && events == [Published(loading), Published(after)]
  }

  /** `toggleUserLike(id)` from `before`. With no user carrying `id` nothing is
      published or written. Otherwise the toggled list is published first, then
      the cache call for the flipped user is made; a failure publishes the
      current state again with `error` set to the message, keeping the toggle. */
  ghost predicate ToggleStep(before: ViewState, id: int, outcome: Persisted,
                             after: ViewState, events: seq<Event>)
  {
    match FindById(before.users, id)
    case None => after == before && events == []
    case Some(user) =>
      var optimistic := before.(users := ToggledUsers(before.users, id).value);
      var call := PersistCall(Flip(user));
      match outcome
      case Stored => after == optimistic && events == [Published(optimistic), call]
      case Failed(message) =>
        after == optimistic.(error := message) && events == [Published(optimistic), call, Published(after)]
  }

  /** What a load promises: `isLoading` is set with users and error untouched;
      afterwards the users are the remote list with the cached flags when the fetch
      succeeds and exactly the cached favourites when it throws, `isLoading` is
      clear and `error` is what it was. */
  lemma LoadStepEffect(before: ViewState, remote: Option<seq<User>>, favourites: seq<User>,
                       after: ViewState, events: seq<Event>)
    requires LoadStep(before, remote, favourites, after, events)
    ensures events[0] == Published(ViewState(before.users, true, before.error))
    ensures events[|events| - 1] == Published(after)
    ensures !after.isLoading && after.error == before.error
    ensures remote.Some? ==>
              && |after.users| == |remote.value|
              && forall i :: 0 <= i < |remote.value| ==>
                   after.users[i] == remote.value[i].(liked := LikedInCache(favourites, remote.value[i].id))
    ensures remote.None? ==> after.users == favourites
  {
  }

  /** Loading twice with the same remote and cache data ends in the same state as
      loading once. */
  lemma LoadTwice(s0: ViewState, remote: Option<seq<User>>, favourites: seq<User>,
                  s1: ViewState, e1: seq<Event>, s2: ViewState, e2: seq<Event>)
    requires LoadStep(s0, remote, favourites, s1, e1)
    requires LoadStep(s1, remote, favourites, s2, e2)
    ensures s2 == s1
  {
  }

  /** What a toggle promises, stated without the view model's own helpers. */
  lemma ToggleStepEffect(before: ViewState, id: int, outcome: Persisted,
                         after: ViewState, events: seq<Event>)
    requires ToggleStep(before, id, outcome, after, events)
    ensures !HasId(before.users, id) ==> after == before && events == []
    ensures HasId(before.users, id) ==>
              && |after.users| == |before.users|
              && (exists k :: IsFirstWithId(before.users, id, k) &&
                    forall i :: 0 <= i < |before.users| ==>
                      after.users[i] == if before.users[i].id == id then Flip(before.users[k]) else before.users[i])
              && after.isLoading == before.isLoading
              && after.error == (if outcome.Stored? then before.error else outcome.message)
              && |events| == (if outcome.Stored? then 2 else 3)
              && events[0] == Published(before.(users := after.users))
              && (outcome.Failed? ==> events[2] == Published(after))
              && (events[1].SaveFavourite? || events[1].DeleteFavourite?)
              && events[1].user.id == id
              && events[1].user in after.users
              && (events[1].SaveFavourite? <==> events[1].user.liked)
  {
  }

  /** Two successful toggles of the same id, on a list whose ids are distinct,
      give back the state before the first. */
  lemma ToggleTwiceRestores(s0: ViewState, id: int, s1: ViewState, e1: seq<Event>,
                            s2: ViewState, e2: seq<Event>)
    requires DistinctIds(s0.users)
    requires ToggleStep(s0, id, Stored, s1, e1)
    requires ToggleStep(s1, id, Stored, s2, e2)
    ensures s2 == s0
  {
  }

  /** Remote users 1 and 2, only user 2 in the cache: user 1 comes out unliked and
      user 2 liked. */
  lemma MergeExample()
    ensures Merge([User(1, "A", false), User(2, "B", false)], [User(2, "B", true)])
            == [User(1, "A", false), User(2, "B", true)]
  {
  }

  class UsersItemsViewModel {
    /** The current view state (`_state.value`). */
    var state: ViewState
    /** Every event so far, oldest first. */
    ghost var trace: seq<Event>

    /** Starts from the default state and loads, as `init` does. */
    constructor (remote: Option<seq<User>>, favourites: seq<User>)
      ensures LoadStep(InitialState, remote, favourites, state, trace)
    {
      state := InitialState;
      trace := [];
      new;
      LoadUsers(remote, favourites);
    }

    method HandleIntent(intent: Intent, remote: Option<seq<User>>, favourites: seq<User>, outcome: Persisted)
      modifies this
      ensures old(trace) <= trace
      ensures intent.FetchUsers? ==>
                LoadStep(old(state), remote, favourites, state, trace[|old(trace)|..])
      ensures intent.ToggleLikeUser? ==>
                ToggleStep(old(state), intent.userId, outcome, state, trace[|old(trace)|..])
    {
      match intent
      case FetchUsers => LoadUsers(remote, favourites);
      case ToggleLikeUser(userId) => ToggleLike(userId, outcome);
    }

    method LoadUsers(remote: Option<seq<User>>, favourites: seq<User>)
      modifies this
      ensures old(trace) <= trace
      ensures LoadStep(old(state), remote, favourites, state, trace[|old(trace)|..])
    {
      state := state.(isLoading := true);
      trace := trace + [Published(state)];
      var fetched := GetUsers(remote, favourites);
      state := state.(users := fetched.users, isLoading := false);
      trace := trace + [Published(state)];
    }

    method ToggleLike(id: int, outcome: Persisted)
      modifies this
      ensures old(trace) <= trace
      ensures ToggleStep(old(state), id, outcome, state, trace[|old(trace)|..])
    {
      var currentUsers := state.users;
      var found := FindById(currentUsers, id);
      if found.None? {
        return;
      }
      var updatedUser := Flip(found.value);
      var updatedUsers := ReplaceById(currentUsers, id, updatedUser);
      state := state.(users := updatedUsers);
      trace := trace + [Published(state)];
      trace := trace + [PersistCall(updatedUser)];
      if outcome.Failed? {
        state := state.(error := outcome.message);
        trace := trace + [Published(state)];
      }
    }
  }
}
