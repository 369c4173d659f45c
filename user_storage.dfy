/** The in-memory user store: a map from user id to user. */
module UserStore {
  import opened Entities
  import opened Identifiers

  /** The store's invariant: every user is filed under its own id, and ids are positive. */
  ghost predicate WellKeyed(users: map<int, User>) {
    forall k :: k in users ==> k >= 1 && users[k].id == k
  }

  /** The map after `createUser(u)`: `u` stamped with the next id and stored under it. */
  function Created(users: map<int, User>, u: User): (r: map<int, User>)
    ensures NextId(users.Keys) !in users
    ensures r.Keys == users.Keys + {NextId(users.Keys)}
    ensures |r| == |users| + 1
    ensures r[NextId(users.Keys)] == u.(id := NextId(users.Keys))
    ensures forall k :: k in users ==> r[k] == users[k]
    ensures WellKeyed(users) ==> WellKeyed(r)
  {
    var newId := NextId(users.Keys);
    users[newId := u.(id := newId)]
  }

  /** After a creation the next id is exactly one more than the id just handed out,
      so successive creations hand out strictly increasing ids. */
  lemma NextIdAfterCreate(users: map<int, User>, u: User)
    ensures NextId(Created(users, u).Keys) == NextId(users.Keys) + 1
  {
    var id := NextId(users.Keys);
    var next := NextId(Created(users, u).Keys);
    assert id in Created(users, u).Keys;
    assert next - 1 in Created(users, u).Keys;
  }

  /** A run of `createUser` calls, one per element of `us`, in order. */
  function CreateAll(users: map<int, User>, us: seq<User>): (r: map<int, User>)
    ensures |r| == |users| + |us|
    decreases |us|
  {
    if us == [] then users
    else CreateAll(Created(users, us[0]), us[1..])
  }

  /** On a fresh store, `n` creations hand out the ids 1, 2, ..., n in call order. */
  lemma {:induction false} CreateAllFromEmpty(us: seq<User>)
    ensures forall k :: k in CreateAll(map[], us) <==> 1 <= k <= |us|
    ensures forall i :: 1 <= i <= |us| ==> i in CreateAll(map[], us) && CreateAll(map[], us)[i] == us[i - 1].(id := i)
  {
    var all := CreateAll(map[], us);
    assert KeysUpTo(map[], 0);
    CreateAllFrom(map[], us, 0);
    assert KeysUpTo(all, |us|);
    assert FiledAfter(all, us, 0);
    forall i | 1 <= i <= |us| ensures i in all && all[i] == us[i - 1].(id := i) {
      assert FiledAt(all, us, 0, i);
    }
  }

  /** An id that no creation on a fresh store handed out is not a key, so
      `updateUser` with it fails with NotFound. */
  lemma NeverIssuedIdIsAbsent(us: seq<User>, id: int)
    requires id < 1 || id > |us|
    ensures id !in CreateAll(map[], us)
  {
    CreateAllFromEmpty(us);
  }

  /** The keys of `users` are exactly 1..n. */
  ghost predicate KeysUpTo(users: map<int, User>, n: int) {
    forall k :: k in users <==> 1 <= k <= n
  }

  /** `users` files `us[j]`, stamped with id n + 1 + j, under key n + 1 + j. */
  ghost predicate FiledAfter(users: map<int, User>, us: seq<User>, n: int) {
    forall i :: n < i <= n + |us| ==> FiledAt(users, us, n, i)
  }

  /** `users` holds `us[i - n - 1]`, stamped with id `i`, under key `i`. */
  ghost predicate FiledAt(users: map<int, User>, us: seq<User>, n: int, i: int)
    requires n < i <= n + |us|
  {
    i in users && users[i] == us[i - n - 1].(id := i)
  }

  /** Creating `us` on a store whose keys are 1..n files `us[j]` under n + 1 + j. */
  lemma {:induction false} CreateAllFrom(users: map<int, User>, us: seq<User>, n: nat)
    requires KeysUpTo(users, n)
    ensures KeysUpTo(CreateAll(users, us), n + |us|)
    ensures forall k :: k in users ==> CreateAll(users, us)[k] == users[k]
    ensures FiledAfter(CreateAll(users, us), us, n)
    decreases |us|
  {
    if us != [] {
      var next := Created(users, us[0]);
      CreateOnRange(users, us[0], n);
      CreateAllFrom(next, us[1..], n + 1);
      FiledAfterStep(users, next, CreateAll(next, us[1..]), us, n);
    }
  }

  /** One creation on the key set 1..n files the user under n + 1. */
  lemma CreateOnRange(users: map<int, User>, u: User, n: nat)
    requires KeysUpTo(users, n)
    ensures KeysUpTo(Created(users, u), n + 1)
    ensures Created(users, u) == users[n + 1 := u.(id := n + 1)]
  {
    NextIdOfRange(users.Keys, n);
  }

  /** Combines the first creation with the creations of the rest. */
  lemma FiledAfterStep(users: map<int, User>, next: map<int, User>, all: map<int, User>, us: seq<User>, n: nat)
    requires us != []
    requires next == users[n + 1 := us[0].(id := n + 1)]
    requires forall k :: k in next ==> k in all && all[k] == next[k]
    requires FiledAfter(all, us[1..], n + 1)
    requires KeysUpTo(users, n)
    ensures forall k :: k in users ==> k in all && all[k] == users[k]
    ensures FiledAfter(all, us, n)
  {
    forall k | k in users ensures k in all && all[k] == users[k] {
      assert k in next && next[k] == users[k];
    }
    forall i | n < i <= n + |us|
      ensures FiledAt(all, us, n, i)
    {
      if i == n + 1 {
        assert i in next;
        assert all[i] == next[i];
      } else {
        assert FiledAt(all, us[1..], n + 1, i);
        FiledAtShift(all, us, n, i);
      }
    }
  }

  /** What `us[1..]` files after n + 1 is what `us` files after n, past its head. */
  lemma FiledAtShift(users: map<int, User>, us: seq<User>, n: int, i: int)
    requires n + 1 < i <= n + |us|
    requires FiledAt(users, us[1..], n + 1, i)
    ensures FiledAt(users, us, n, i)
  {
    assert us[1..][i - (n + 1) - 1] == us[i - n - 1];
  }

  class InMemoryUserStorage {
    /** `usersStorage`. */
    var users: map<int, User>

    ghost predicate Valid()
      reads this
    {
      WellKeyed(users)
    }

    constructor ()
      ensures Valid() && users == map[]
    {
      users := map[];
    }

    /** `getNextId`. */
    method GetNextId() returns (id: int)
      ensures id == NextId(users.Keys)
      ensures id !in users && forall k :: k in users ==> k < id
      ensures users == map[] ==> id == 1
    {
      id := NextId(users.Keys);
    }

    /** `createUser`: stamps the argument with a fresh id, stores it under that id
        and returns the stored user. */
    method CreateUser(user: User) returns (r: User)
      requires Valid()
      modifies this
      ensures Valid()
      ensures users == Created(old(users), user)
      ensures r.id == NextId(old(users).Keys) && r == user.(id := r.id)
      ensures r.id in users && users[r.id] == r
    {
      var newId := GetNextId();
      var stamped := user.(id := newId);
      users := users[newId := stamped];
      r := stamped;
    }

    /** `updateUser`: NotFound for an unknown id, otherwise the whole entry
        (friend set included) is replaced by the argument, which is returned. */
    method UpdateUser(updUser: User) returns (r: Result<User>)
      requires Valid()
      modifies this
      ensures Valid()
      ensures updUser.id !in old(users) ==> r == Err(NotFound(UserEntity, updUser.id)) && users == old(users)
      ensures updUser.id in old(users) ==> r == Ok(updUser) && users == old(users)[updUser.id := updUser]
      ensures users.Keys == old(users).Keys
    {
      var receivedId := updUser.id;
      var oldUser :- GetUserById(receivedId);
      users := users[receivedId := updUser];
      r := Ok(updUser);
    }

    /** `getAllUsers`: every stored user, one per key. */
    method GetAllUsers() returns (r: seq<User>)
      ensures r == ValuesByKey(users)
      ensures |r| == |users|
      ensures ListsByKey(users, r)
    {
      r := ValuesByKey(users);
      ValuesByKeyContents(users);
    }

    /** `getUserById`: the stored user, or NotFound. */
    method GetUserById(id: int) returns (r: Result<User>)
      ensures r == Lookup(users, UserEntity, id)
      ensures id in users ==> r == Ok(users[id])
      ensures id !in users ==> r == Err(NotFound(UserEntity, id))
    {
      if id !in users {
        return Err(NotFound(UserEntity, id));
      }
      r := Ok(users[id]);
    }
  }
}
