/** The likes store (src/app/likestore.tsx): a set of liked game ids kept in
    memory by a reducer, written through to `localStorage` on every change and
    re-read when another tab changes it. */
module LikeStore {
  import opened Wrappers
  import opened Storage
  import Seqs

  /** The reducer's actions. */
  datatype Action =
    | Like(id: string)
    | Unlike(id: string)
    | Toggle(id: string)
    | Clear
    | Reset(next: set<string>)

  /** The pure part of the reducer: the next liked set. */
  function Reduce(state: set<string>, a: Action): (r: set<string>)
    ensures a.Like? ==> a.id in r && forall x :: x != a.id ==> (x in r <==> x in state)
    ensures a.Unlike? ==> a.id !in r && forall x :: x != a.id ==> (x in r <==> x in state)
    ensures a.Toggle? ==> (a.id in r <==> a.id !in state) && forall x :: x != a.id ==> (x in r <==> x in state)
    ensures a.Clear? ==> r == {}
    ensures a.Reset? ==> r == a.next
  {
    match a
    case Like(id) => state + {id}
    case Unlike(id) => state - {id}
    case Toggle(id) => if id in state then state - {id} else state + {id}
    case Clear => {}
    case Reset(next) => next
  }

  /** `like` adds exactly `id`; liking twice is liking once. */
  lemma LikeAdds(state: set<string>, id: string)
    ensures forall x :: x in Reduce(state, Like(id)) <==> x == id || x in state
    ensures Reduce(Reduce(state, Like(id)), Like(id)) == Reduce(state, Like(id))
  {
  }

  /** `unlike` removes exactly `id`; every other id keeps its membership. */
  lemma UnlikeRemoves(state: set<string>, id: string)
    ensures id !in Reduce(state, Unlike(id))
    ensures forall x :: x != id ==> (x in Reduce(state, Unlike(id)) <==> x in state)
  {
  }

  /** `toggle` inverts the membership of `id` only, acts as `like` on an
      unliked id and as `unlike` on a liked one, and undoes itself. */
  lemma ToggleInverts(state: set<string>, id: string)
    ensures (id in Reduce(state, Toggle(id))) == (id !in state)
    ensures forall x :: x != id ==> (x in Reduce(state, Toggle(id)) <==> x in state)
    ensures Reduce(state, Toggle(id)) == Reduce(state, if id in state then Unlike(id) else Like(id))
    ensures Reduce(Reduce(state, Toggle(id)), Toggle(id)) == state
  {
  }

  /** `readFromStorage`: the stored array without its empty strings, and the
      empty set for a missing key, an empty value or text that is not a JSON
      array (`JSON.parse` throws, or the `filter` call does on `null`, a
      boolean, a string, a number or an object). */
  function ReadFromStorage(v: Option<Stored>): (r: set<string>)
    ensures "" !in r
    ensures v.Some? && v.value.Strings? ==> r == v.value.items - {""}
    ensures !(v.Some? && v.value.Strings?) ==> r == {}
  {
    match v
    case Some(Strings(items)) => set x | x in items && x != ""
    case _ => {}
  }

  /** The liked set of one tab: the reducer state of `LikesProvider`. */
  class LikesProvider {
    var likedIds: set<string>
    const storage: LocalStorage

    /** Only dispatches with a non-empty id or a re-read of storage ever run,
        so the empty id is never liked. */
    ghost predicate Valid()
      reads this
    {
      "" !in likedIds
    }

    /** Mounting: the initial state is read from storage. */
    constructor (storage: LocalStorage)
      ensures this.storage == storage
      ensures likedIds == ReadFromStorage(storage.GetItem(LikesKey))
      ensures Valid()
    {
      this.storage := storage;
      likedIds := ReadFromStorage(storage.GetItem(LikesKey));
    }

    /** `dispatch(action)`: the reducer's new state, written through to
        storage before it becomes the state. */
    method Dispatch(a: Action)
      modifies this, storage
      ensures likedIds == Reduce(old(likedIds), a)
      ensures storage.items == old(storage.items)[LikesKey := Strings(likedIds)]
    {
      var next := Reduce(likedIds, a);
      storage.SetItem(LikesKey, Strings(next));
      likedIds := next;
    }

    /** `like(id)`: no dispatch for the empty id. */
    method Like(id: string)
      requires Valid()
      modifies this, storage
      ensures Valid()
      ensures id == "" ==> likedIds == old(likedIds) && storage.items == old(storage.items)
      ensures id != "" ==> (likedIds == old(likedIds) + {id}
        && storage.items == old(storage.items)[LikesKey := Strings(likedIds)])
    {
      if id != "" {
        Dispatch(Action.Like(id));
      }
    }

    /** `unlike(id)`: no dispatch for the empty id. */
    method Unlike(id: string)
      requires Valid()
      modifies this, storage
      ensures Valid()
      ensures id == "" ==> likedIds == old(likedIds) && storage.items == old(storage.items)
      ensures id != "" ==> (likedIds == old(likedIds) - {id}
        && storage.items == old(storage.items)[LikesKey := Strings(likedIds)])
    {
      if id != "" {
        Dispatch(Action.Unlike(id));
      }
    }

    /** `toggle(id)`: no dispatch for the empty id. */
    method Toggle(id: string)
      requires Valid()
      modifies this, storage
      ensures Valid()
      ensures id == "" ==> likedIds == old(likedIds) && storage.items == old(storage.items)
      ensures id != "" ==> ((id in likedIds <==> id !in old(likedIds))
        && likedIds - {id} == old(likedIds) - {id}
        && storage.items == old(storage.items)[LikesKey := Strings(likedIds)])
    {
      if id != "" {
        Dispatch(Action.Toggle(id));
      }
    }

    /** `clear()`. */
    method Clear()
      modifies this, storage
      ensures Valid()
      ensures likedIds == {}
      ensures storage.items == old(storage.items)[LikesKey := Strings({})]
    {
      Dispatch(Action.Clear);
    }

    /** `isLiked(id)`. */
    function IsLiked(id: string): bool
      reads this
    {
      id in likedIds
    }

    /** A `storage` event from another tab: on the likes key the whole set is
        re-read and replaces the state (last writer wins); other keys are
        ignored. */
    method OnStorageEvent(key: string)
      requires Valid()
      modifies this, storage
      ensures Valid()
      ensures key != LikesKey ==> likedIds == old(likedIds) && storage.items == old(storage.items)
      ensures key == LikesKey ==> (likedIds == ReadFromStorage(old(storage.GetItem(LikesKey)))
        && storage.items == old(storage.items)[LikesKey := Strings(likedIds)])
    {
      if key == LikesKey {
        Dispatch(Reset(ReadFromStorage(storage.GetItem(LikesKey))));
      }
    }

    /** `LikeButton.handleClick`: toggles `id` and reports the new liked
        state computed from the state before the click. */
    method HandleClick(id: string) returns (reported: bool)
      requires Valid()
      modifies this, storage
      ensures Valid()
      ensures reported == (id !in old(likedIds))
      ensures id != "" ==> (reported <==> id in likedIds)
      ensures id == "" ==> likedIds == old(likedIds)
    {
      var liked := IsLiked(id);
      Toggle(id);
      reported := !liked;
    }
  }

  /** One operation a tab performs through its public functions. */
  datatype Op = OpLike(id: string) | OpUnlike(id: string) | OpToggle(id: string) | OpClear

  /** Cross-tab convergence: two tabs share one storage; after tab A performs
      any operation and tab B receives the resulting `storage` event, both
      tabs hold the same liked set, and that set is what storage holds. */
  method CrossTabConvergence(initial: map<string, Stored>, op: Op)
    returns (inA: set<string>, inB: set<string>, stored: Option<Stored>)
    ensures inA == inB
    ensures stored == Some(Strings(inA))
  {
    var store := new LocalStorage(initial);
    var a := new LikesProvider(store);
    var b := new LikesProvider(store);
    match op {
      case OpLike(id) => a.Like(id);
      case OpUnlike(id) => a.Unlike(id);
      case OpToggle(id) => a.Toggle(id);
      case OpClear => a.Clear();
    }
    b.OnStorageEvent(LikesKey);
    inA, inB, stored := a.likedIds, b.likedIds, store.GetItem(LikesKey);
  }

  /** `useLikeMap`: a map with a key for exactly the games that have an id,
      whose value says whether that id is liked. */
  method LikeMap<T>(games: seq<T>, idOf: T -> string, likedIds: set<string>)
    returns (m: map<string, bool>)
    ensures forall k :: k in m <==> k != "" && exists g :: g in games && idOf(g) == k
    ensures forall k :: k in m ==> m[k] == (k in likedIds)
  {
    m := map[];
    var i := 0;
    while i < |games|
      invariant 0 <= i <= |games|
      invariant forall k :: k in m <==> k != "" && exists g :: g in games[..i] && idOf(g) == k
      invariant forall k :: k in m ==> m[k] == (k in likedIds)
    {
      var g := games[i];
      assert games[..i + 1] == games[..i] + [g];
      if idOf(g) != "" {
        m := m[idOf(g) := idOf(g) in likedIds];
      }
      i := i + 1;
    }
    assert games[..i] == games;
  }

  /** `useLikedGames`: the games, in their order, whose id is non-empty and
      liked. */
  function LikedGames<T(!new)>(games: seq<T>, idOf: T -> string, likedIds: set<string>): (r: seq<T>)
    ensures forall g :: g in r <==> g in games && idOf(g) != "" && idOf(g) in likedIds
  {
    Seqs.Filter(games, g => idOf(g) != "" && idOf(g) in likedIds)
  }

  /** The liked games of a catalog are the liked games of its parts, in
      order: liking one game never reorders the list. */
  lemma LikedGamesOrder<T(!new)>(a: seq<T>, b: seq<T>, idOf: T -> string, likedIds: set<string>)
    ensures LikedGames(a + b, idOf, likedIds) == LikedGames(a, idOf, likedIds) + LikedGames(b, idOf, likedIds)
  {
    Seqs.FilterConcat(a, b, g => idOf(g) != "" && idOf(g) in likedIds);
  }
}
