/**
 * The user records shown on the items screen, and the pure list computations the
 * view model performs on them: overlaying cached `liked` flags onto a remote list
 * (`mergeWithCachedLikes`) and flipping one user's flag (`find` then `map` in
 * `toggleUserLike`).
 */
module Users {
  import opened Wrappers

  /** A user as the screen sees it. `details` stands for every display attribute
      (name and the rest) that the view model copies but never inspects. */
  datatype User = User(id: int, details: string, liked: bool)

  /** The same user with its like flag inverted (`user.copy(liked = !user.liked)`). */
  function Flip(u: User): (flipped: User)
    ensures flipped.id == u.id && flipped.details == u.details
    ensures flipped.liked != u.liked
  {
    u.(liked := !u.liked)
  }

  /** Some record of `users` carries `id`. */
  ghost predicate HasId(users: seq<User>, id: int)
  {
    exists k :: 0 <= k < |users| && users[k].id == id
  }

  /** `k` is the first position of `users` carrying `id`. */
  ghost predicate IsFirstWithId(users: seq<User>, id: int, k: int)
  {
    && 0 <= k < |users|
    && users[k].id == id
    && forall j :: 0 <= j < k ==> users[j].id != id
  }

  /** `k` is the last position of `users` carrying `id`. */
  ghost predicate IsLastWithId(users: seq<User>, id: int, k: int)
  {
    && 0 <= k < |users|
    && users[k].id == id
    && forall j :: k < j < |users| ==> users[j].id != id
  }

  /** The flag the cache holds for `id`: that of the last cached record carrying
      `id`, and false when no cached record carries it. */
  ghost predicate LikedInCache(cached: seq<User>, id: int)
  {
    exists k :: IsLastWithId(cached, id, k) && cached[k].liked
  }

  /** No two records share an id. */
  ghost predicate DistinctIds(users: seq<User>)
  {
    forall i, j :: 0 <= i < |users| && 0 <= j < |users| && users[i].id == users[j].id ==> i == j
  }

  // ---------------------------------------------------------------------------
  // mergeWithCachedLikes
  // ---------------------------------------------------------------------------

  /** The cached records keyed by id, as `associateBy { it.id }` builds them:
      records are entered from first to last, so a later record replaces an
      earlier one with the same id. Every record's id is a key, every key is the
      id of some record, and each key is bound to a record carrying it. */
  function AssociateById(users: seq<User>): (byId: map<int, User>)
    ensures forall k :: 0 <= k < |users| ==> users[k].id in byId
    ensures forall id :: id in byId ==> byId[id].id == id && HasId(users, id)
  {
    if users == [] then map[]
    else AssociateById(users[..|users| - 1])[users[|users| - 1].id := users[|users| - 1]]
  }

  /** The map built by `associateBy` holds exactly the ids of the list, each bound
      to the last record that carries it. */
  lemma {:induction false} AssociateByIdAt(users: seq<User>, id: int)
    ensures id in AssociateById(users) <==> HasId(users, id)
    ensures id in AssociateById(users) ==>
              exists k :: IsLastWithId(users, id, k) && AssociateById(users)[id] == users[k]
  {
    if users != [] {
      var init, last := users[..|users| - 1], users[|users| - 1];
      if last.id == id {
        assert IsLastWithId(users, id, |users| - 1);
      } else if id in AssociateById(init) {
        AssociateByIdAt(init, id);
        var k :| IsLastWithId(init, id, k) && AssociateById(init)[id] == init[k];
        assert IsLastWithId(users, id, k);
      }
    }
  }

  /** Looking a flag up in the `associateBy` map, with false for a missing key
      (`cachedMap[id]?.liked ?: false`), gives the flag the cache holds. */
  lemma AssociateByIdLiked(cached: seq<User>)
    ensures forall id :: (id in AssociateById(cached) && AssociateById(cached)[id].liked)
                         == LikedInCache(cached, id)
  {
  }

  /** `remote.mergeWithCachedLikes(cached)`: the remote list, in its order, each
      user keeping its id and details and taking the flag the cache holds for its
      id. Cached users missing from the remote list do not appear. */
  function Merge(remote: seq<User>, cached: seq<User>): (merged: seq<User>)
    ensures |merged| == |remote|
    ensures forall i :: 0 <= i < |remote| ==>
              merged[i] == remote[i].(liked := LikedInCache(cached, remote[i].id))
    ensures forall u :: u in merged ==> HasId(remote, u.id)
  {
    var cachedMap := AssociateById(cached);
    AssociateByIdLiked(cached);
    seq(|remote|, i requires 0 <= i < |remote| =>
      var id := remote[i].id;
      remote[i].(liked := if id in cachedMap then cachedMap[id].liked else false))
  }

  /** Merging an already merged list with the same cache changes nothing. */
  lemma MergeIdempotent(remote: seq<User>, cached: seq<User>)
    ensures Merge(Merge(remote, cached), cached) == Merge(remote, cached)
  {
  }

  /** When every cached record is liked (the favourites table only holds liked
      users), a merged user is liked exactly when its id is cached. */
  lemma {:induction false} MergeWithFavourites(remote: seq<User>, favourites: seq<User>)
    requires forall k :: 0 <= k < |favourites| ==> favourites[k].liked
    ensures forall i :: 0 <= i < |remote| ==>
              Merge(remote, favourites)[i].liked == HasId(favourites, remote[i].id)
  {
    forall i | 0 <= i < |remote|
      ensures Merge(remote, favourites)[i].liked == HasId(favourites, remote[i].id)
    {
      var id := remote[i].id;
      if HasId(favourites, id) {
        LastIndexExists(favourites, id);
      }
    }
  }

  /** An id carried by some record has a last position. */
  lemma {:induction false} LastIndexExists(users: seq<User>, id: int)
    requires HasId(users, id)
    ensures exists k :: IsLastWithId(users, id, k)
  {
    var last := users[|users| - 1];
    if last.id == id {
      assert IsLastWithId(users, id, |users| - 1);
    } else {
      var init := users[..|users| - 1];
      var j :| 0 <= j < |users| && users[j].id == id;
      assert init[j].id == id;
      LastIndexExists(init, id);
      var k :| IsLastWithId(init, id, k);
      assert IsLastWithId(users, id, k);
    }
  }

  /** With an empty cache every merged user is unliked. */
  lemma MergeWithEmptyCache(remote: seq<User>)
    ensures forall i :: 0 <= i < |remote| ==> !Merge(remote, [])[i].liked
  {
  }

  // ---------------------------------------------------------------------------
  // toggleUserLike: the new list
  // ---------------------------------------------------------------------------

  /** `users.find { it.id == id }`: the first record carrying `id`, if any. */
  function FindById(users: seq<User>, id: int): (found: Option<User>)
    ensures found.None? <==> !HasId(users, id)
    ensures found.Some? ==> exists k :: IsFirstWithId(users, id, k) && found.value == users[k]
  {
    if users == [] then None
    else if users[0].id == id then
      assert IsFirstWithId(users, id, 0);
      Some(users[0])
    else
      var found := FindById(users[1..], id);
      assert HasId(users, id) ==> HasId(users[1..], id) by {
        if HasId(users, id) {
          var k :| 0 <= k < |users| && users[k].id == id;
          assert users[1..][k - 1].id == id;
        }
      }
      assert found.Some? ==> exists k :: IsFirstWithId(users, id, k) && found.value == users[k] by {
        if found.Some? {
          var k :| IsFirstWithId(users[1..], id, k) && found.value == users[1..][k];
          assert IsFirstWithId(users, id, k + 1);
        }
      }
      found
  }

  /** The list with every record carrying `id` replaced by `updated` and every
      other record kept in place (`users.map { if (it.id == id) updated else it }`).
      When `updated` carries `id` itself, the ids of the list are unchanged. */
  function ReplaceById(users: seq<User>, id: int, updated: User): (replaced: seq<User>)
    ensures |replaced| == |users|
    ensures forall i :: 0 <= i < |users| && users[i].id != id ==> replaced[i] == users[i]
    ensures forall i :: 0 <= i < |users| && users[i].id == id ==> replaced[i] == updated
    ensures updated.id == id ==> forall i :: 0 <= i < |users| ==> replaced[i].id == users[i].id
  {
    seq(|users|, i requires 0 <= i < |users| => if users[i].id == id then updated else users[i])
  }

  /** The list `toggleUserLike` publishes: nothing when no record carries `id`;
      otherwise the same list, in the same order, where every record carrying `id`
      becomes the first such record with its flag flipped and every other record
      is kept. */
  function ToggledUsers(users: seq<User>, id: int): (toggled: Option<seq<User>>)
    ensures toggled.None? <==> !HasId(users, id)
    ensures toggled.Some? ==>
              && |toggled.value| == |users|
              && exists k :: IsFirstWithId(users, id, k) &&
                   forall i :: 0 <= i < |users| ==>
                     toggled.value[i] == if users[i].id == id then Flip(users[k]) else users[i]
  {
    match FindById(users, id)
    case None => None
    case Some(user) => Some(ReplaceById(users, id, Flip(user)))
  }

  /** After a toggle, the first record carrying `id` is the flipped first record
      of the original list. */
  lemma FindAfterReplace(users: seq<User>, id: int, k: int, updated: User)
    requires IsFirstWithId(users, id, k) && updated.id == id
    ensures FindById(ReplaceById(users, id, updated), id) == Some(updated)
  {
  }

  /** Toggling the same id twice sets every record carrying it to the first such
      record; so when ids are distinct it gives back the original list. */
  lemma ToggleTwice(users: seq<User>, id: int)
    requires HasId(users, id)
    ensures ToggledUsers(ToggledUsers(users, id).value, id).Some?
    ensures forall i :: 0 <= i < |users| ==>
              ToggledUsers(ToggledUsers(users, id).value, id).value[i] ==
                if users[i].id == id then FindById(users, id).value else users[i]
    ensures DistinctIds(users) ==> ToggledUsers(ToggledUsers(users, id).value, id) == Some(users)
  {
    var first := FindById(users, id).value;
    var k :| IsFirstWithId(users, id, k) && first == users[k];
    var once := ReplaceById(users, id, Flip(first));
    FindAfterReplace(users, id, k, Flip(first));
    var twice := ReplaceById(once, id, first);
    assert ToggledUsers(users, id) == Some(once);
    assert ToggledUsers(once, id) == Some(twice);
    assert |twice| == |users|;
    if DistinctIds(users) {
      forall i | 0 <= i < |users| ensures twice[i] == users[i] {
        if users[i].id == id { assert i == k; }
      }
      assert twice == users;
    }
  }
}
