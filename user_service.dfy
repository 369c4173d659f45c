/** The user service: name defaulting, the friendship operations over the
    user store, and the friend queries. */
module UserServices {
  import opened Entities
  import opened Identifiers
  import opened UserStore

  // ---------------------------------------------------------------------------
  // Name defaulting

  /** The Unicode space separators (general category Zs). */
  predicate IsSpaceSeparator(c: char) {
    c == ' ' || c == '\U{A0}' || c == '\U{1680}' || ('\U{2000}' <= c <= '\U{200A}')
    || c == '\U{202F}' || c == '\U{205F}' || c == '\U{3000}'
  }

  /** The three no-break spaces. */
  predicate IsNoBreakSpace(c: char) {
    c == '\U{A0}' || c == '\U{2007}' || c == '\U{202F}'
  }

  /** `Character.isWhitespace`: the space, line and paragraph separators other
      than the three no-break spaces, and the ASCII controls 9-13 and 28-31. */
  predicate IsWhitespace(c: char): (r: bool)
    ensures r <==>
      || ((IsSpaceSeparator(c) || c == '\U{2028}' || c == '\U{2029}') && !IsNoBreakSpace(c))
      || ('\t' <= c <= '\r') || ('\U{1C}' <= c <= '\U{1F}')
  {
    || c == ' ' || ('\t' <= c <= '\r') || ('\U{1C}' <= c <= '\U{1F}')
    || c == '\U{1680}'
    || ('\U{2000}' <= c <= '\U{2006}') || ('\U{2008}' <= c <= '\U{200A}')
    || c == '\U{2028}' || c == '\U{2029}' || c == '\U{205F}' || c == '\U{3000}'
  }

  /** The index of the first non-whitespace character of `s`, or `|s|`. */
  function IndexOfNonWhitespace(s: string): (i: nat)
    ensures i <= |s|
    ensures forall k :: 0 <= k < i ==> IsWhitespace(s[k])
    ensures i < |s| ==> !IsWhitespace(s[i])
  {
    if s == [] || !IsWhitespace(s[0]) then 0
    else 1 + IndexOfNonWhitespace(s[1..])
  }

  /** `String.isBlank`: empty or whitespace only, which is to say that the
      first non-whitespace character lies past the end. */
  predicate IsBlank(s: string): (r: bool)
    ensures r <==> IndexOfNonWhitespace(s) == |s|
  {
    forall i :: 0 <= i < |s| ==> IsWhitespace(s[i])
  }

  /** The name is null or blank, so the login takes its place. */
  predicate NeedsDefaultName(u: User) {
    u.name.None? || IsBlank(u.name.value)
  }

  /** The name-defaulting step of `createUser` and `updateUser`. */
  function WithDefaultName(u: User): (r: User)
    ensures r == u.(name := r.name)
    ensures NeedsDefaultName(u) ==> r.name == Some(u.login)
    ensures !NeedsDefaultName(u) ==> r.name == u.name
  {
    if NeedsDefaultName(u) then u.(name := Some(u.login)) else u
  }

  /** Defaulting twice is defaulting once. */
  lemma WithDefaultNameIdempotent(u: User)
    ensures WithDefaultName(WithDefaultName(u)) == WithDefaultName(u)
  {
  }

  /** With a non-blank login the defaulted name is present and non-blank. */
  lemma DefaultedNameIsNotBlank(u: User)
    requires !IsBlank(u.login)
    ensures WithDefaultName(u).name.Some?
    ensures !IsBlank(WithDefaultName(u).name.value)
  {
  }

  // ---------------------------------------------------------------------------
  // Friendship state changes

  /** Friendship is mutual: whenever `b` is in `a`'s friend set, `b` is stored
      and `a` is in `b`'s friend set. */
  ghost predicate Symmetric(users: map<int, User>) {
    forall a, b :: a in users && b in users[a].friends ==> b in users && a in users[b].friends
  }

  /** Every friend id refers to a stored user. */
  ghost predicate FriendsStored(users: map<int, User>) {
    forall a, b :: a in users && b in users[a].friends ==> b in users
  }

  /** `getFriendsIdentifiers().add(other)` on the user stored under `id`. */
  function WithFriend(users: map<int, User>, id: int, other: int): (r: map<int, User>)
    requires id in users
    ensures r.Keys == users.Keys
    ensures r[id].friends == users[id].friends + {other}
    ensures r[id] == users[id].(friends := r[id].friends)
    ensures forall k :: k in users && k != id ==> r[k] == users[k]
  {
    users[id := users[id].(friends := users[id].friends + {other})]
  }

  /** `getFriendsIdentifiers().remove(other)` on the user stored under `id`. */
  function WithoutFriend(users: map<int, User>, id: int, other: int): (r: map<int, User>)
    requires id in users
    ensures r.Keys == users.Keys
    ensures r[id].friends == users[id].friends - {other}
    ensures r[id] == users[id].(friends := r[id].friends)
    ensures forall k :: k in users && k != id ==> r[k] == users[k]
  {
    users[id := users[id].(friends := users[id].friends - {other})]
  }

  /** `addFriend(userId, friendId)`: the outcome and the new user map. The first
      user's set is extended BEFORE the second user is looked up, so a missing
      friend leaves a one-sided entry behind. */
  function AddFriendEffect(users: map<int, User>, userId: int, friendId: int): (r: (Result<()>, map<int, User>))
    ensures r.1.Keys == users.Keys
    ensures r.0.Ok? <==> userId in users && friendId in users
    ensures userId !in users ==> r == (Err(NotFound(UserEntity, userId)), users)
    ensures userId in users && friendId !in users ==>
      r.0 == Err(NotFound(UserEntity, friendId)) && r.1 == WithFriend(users, userId, friendId)
    ensures r.0.Ok? ==>
      && r.1[userId].friends == users[userId].friends + {friendId}
      && r.1[friendId].friends == users[friendId].friends + {userId}
    ensures forall k :: k in users && k != userId && k != friendId ==> r.1[k] == users[k]
    ensures forall k :: k in users ==> r.1[k] == users[k].(friends := r.1[k].friends)
    ensures WellKeyed(users) ==> WellKeyed(r.1)
  {
    if userId !in users then (Err(NotFound(UserEntity, userId)), users)
    else
      var first := WithFriend(users, userId, friendId);
      if friendId !in first then (Err(NotFound(UserEntity, friendId)), first)
      else (Ok(()), WithFriend(first, friendId, userId))
  }

  /** `removeFriend(userId, friendId)`: the outcome and the new user map. As in
      `addFriend`, the first user's set shrinks before the second is looked up. */
  function RemoveFriendEffect(users: map<int, User>, userId: int, friendId: int): (r: (Result<()>, map<int, User>))
    ensures r.1.Keys == users.Keys
    ensures r.0.Ok? <==> userId in users && friendId in users
    ensures userId !in users ==> r == (Err(NotFound(UserEntity, userId)), users)
    ensures userId in users && friendId !in users ==>
      r.0 == Err(NotFound(UserEntity, friendId)) && r.1 == WithoutFriend(users, userId, friendId)
    ensures r.0.Ok? ==>
      && r.1[userId].friends == users[userId].friends - {friendId}
      && r.1[friendId].friends == users[friendId].friends - {userId}
    ensures forall k :: k in users && k != userId && k != friendId ==> r.1[k] == users[k]
    ensures forall k :: k in users ==> r.1[k] == users[k].(friends := r.1[k].friends)
    ensures WellKeyed(users) ==> WellKeyed(r.1)
  {
    if userId !in users then (Err(NotFound(UserEntity, userId)), users)
    else
      var first := WithoutFriend(users, userId, friendId);
      if friendId !in first then (Err(NotFound(UserEntity, friendId)), first)
      else (Ok(()), WithoutFriend(first, friendId, userId))
  }

  /** A successful `addFriend` makes the two users friends of each other. */
  lemma AddFriendMakesMutualFriends(users: map<int, User>, userId: int, friendId: int)
    requires userId in users && friendId in users
    ensures var (r, after) := AddFriendEffect(users, userId, friendId);
      r == Ok(()) && friendId in after[userId].friends && userId in after[friendId].friends
  {
  }

  /** Repeating a successful `addFriend` changes nothing more. */
  lemma AddFriendIdempotent(users: map<int, User>, userId: int, friendId: int)
    requires userId in users && friendId in users
    ensures var after := AddFriendEffect(users, userId, friendId).1;
      AddFriendEffect(after, userId, friendId) == (Ok(()), after)
  {
    var after := AddFriendEffect(users, userId, friendId).1;
    var again := AddFriendEffect(after, userId, friendId).1;
    assert friendId in after[userId].friends && userId in after[friendId].friends;
    assert again[userId] == after[userId];
    assert again[friendId] == after[friendId];
    assert again == after;
  }

  /** A successful `addFriend` keeps a symmetric friendship relation symmetric. */
  lemma AddFriendKeepsSymmetry(users: map<int, User>, userId: int, friendId: int)
    requires Symmetric(users)
    requires userId in users && friendId in users
    ensures Symmetric(AddFriendEffect(users, userId, friendId).1)
  {
    var after := AddFriendEffect(users, userId, friendId).1;
    forall a, b | a in after && b in after[a].friends
      ensures b in after && a in after[b].friends
    {
      if (a == userId && b == friendId) || (a == friendId && b == userId) {
      } else {
        assert b in users[a].friends;
      }
    }
  }

  /** An `addFriend` whose second user is missing fails, yet leaves the first
      user pointing at the missing id: the relation is no longer symmetric. */
  lemma FailedAddFriendBreaksSymmetry(users: map<int, User>, userId: int, friendId: int)
    requires userId in users && friendId !in users
    ensures var (r, after) := AddFriendEffect(users, userId, friendId);
      r == Err(NotFound(UserEntity, friendId)) && friendId in after[userId].friends && !Symmetric(after)
  {
  }

  /** A successful `removeFriend` leaves neither user in the other's set. */
  lemma RemoveFriendEndsFriendship(users: map<int, User>, userId: int, friendId: int)
    requires userId in users && friendId in users
    ensures var (r, after) := RemoveFriendEffect(users, userId, friendId);
      r == Ok(()) && friendId !in after[userId].friends && userId !in after[friendId].friends
  {
  }

  /** `removeFriend` on two users who are not friends changes nothing. */
  lemma RemoveFriendOfNonFriendIsNoOp(users: map<int, User>, userId: int, friendId: int)
    requires userId in users && friendId in users
    requires friendId !in users[userId].friends && userId !in users[friendId].friends
    ensures RemoveFriendEffect(users, userId, friendId) == (Ok(()), users)
  {
    var after := RemoveFriendEffect(users, userId, friendId).1;
    assert after[userId] == users[userId];
    assert after[friendId] == users[friendId];
    assert after == users;
  }

  /** A successful `removeFriend` keeps a symmetric friendship relation symmetric. */
  lemma RemoveFriendKeepsSymmetry(users: map<int, User>, userId: int, friendId: int)
    requires Symmetric(users)
    requires userId in users && friendId in users
    ensures Symmetric(RemoveFriendEffect(users, userId, friendId).1)
  {
    var after := RemoveFriendEffect(users, userId, friendId).1;
    forall a, b | a in after && b in after[a].friends
      ensures b in after && a in after[b].friends
    {
      assert b in users[a].friends;
    }
  }

  /** `addFriend` followed by `removeFriend` on two users who were not friends
      restores the user map. */
  lemma AddThenRemoveFriendRestores(users: map<int, User>, userId: int, friendId: int)
    requires userId in users && friendId in users
    requires friendId !in users[userId].friends && userId !in users[friendId].friends
    ensures RemoveFriendEffect(AddFriendEffect(users, userId, friendId).1, userId, friendId) == (Ok(()), users)
  {
    var added := AddFriendEffect(users, userId, friendId).1;
    var after := RemoveFriendEffect(added, userId, friendId).1;
    assert after[userId] == users[userId];
    assert after[friendId] == users[friendId];
    assert after == users;
  }

  /** `updateUser` replaces the friend set wholesale, so replacing a user who
      has a friend with a copy whose friend set is empty leaves that friend
      pointing at a user who no longer lists it. */
  lemma UpdateCanBreakSymmetry(users: map<int, User>, updUser: User, friendId: int)
    requires Symmetric(users)
    requires updUser.id in users && friendId in users[updUser.id].friends
    requires friendId != updUser.id && updUser.friends == {}
    ensures !Symmetric(users[updUser.id := updUser])
  {
    var after := users[updUser.id := updUser];
    assert updUser.id in after[friendId].friends;
    assert updUser.id !in after[friendId].friends || friendId !in after[updUser.id].friends;
  }

  // ---------------------------------------------------------------------------
  // Friend queries

  /** The ids of a sequence of users, in order. */
  function Ids(us: seq<User>): (r: seq<int>)
    ensures |r| == |us|
    ensures forall i :: 0 <= i < |us| ==> r[i] == us[i].id
  {
    if us == [] then [] else [us[0].id] + Ids(us[1..])
  }

  /** `.map(userStorage::getUserById)` over a sequence of ids: the stored users
      in the same order, or NotFound for the first id that is not stored. */
  function LookupAll(users: map<int, User>, ids: seq<int>): (r: Result<seq<User>>)
    ensures r.Ok? <==> forall i :: 0 <= i < |ids| ==> ids[i] in users
    ensures r.Ok? ==> |r.value| == |ids| && forall i :: 0 <= i < |ids| ==> r.value[i] == users[ids[i]]
    ensures r.Err? ==> exists i :: 0 <= i < |ids| && ids[i] !in users && r.error == NotFound(UserEntity, ids[i])
                                   && forall j :: 0 <= j < i ==> ids[j] in users
  {
    if ids == [] then Ok([])
    else if ids[0] !in users then Err(NotFound(UserEntity, ids[0]))
    else
      match LookupAll(users, ids[1..])
      case Ok(rest) => Ok([users[ids[0]]] + rest)
      case Err(e) =>
        assert exists i :: 1 <= i < |ids| && ids[i] !in users && e == NotFound(UserEntity, ids[i])
                           && forall j :: 0 <= j < i ==> ids[j] in users by {
          var i :| 0 <= i < |ids| - 1 && ids[1..][i] !in users && e == NotFound(UserEntity, ids[1..][i])
                   && forall j :: 0 <= j < i ==> ids[1..][j] in users;
          assert forall j :: 0 <= j < i + 1 ==> ids[j] in users by {
            forall j | 0 <= j < i + 1 ensures ids[j] in users {
              if j > 0 { assert ids[j] == ids[1..][j - 1]; }
            }
          }
          assert ids[i + 1] == ids[1..][i];
        }
        Err(e)
  }

  /** Under the store invariant, the users `LookupAll` returns carry exactly
      the requested ids. */
  lemma {:induction false} LookupAllIds(users: map<int, User>, ids: seq<int>)
    requires WellKeyed(users)
    ensures LookupAll(users, ids).Ok? ==> Ids(LookupAll(users, ids).value) == ids
  {
    var r := LookupAll(users, ids);
    if r.Ok? {
      assert |Ids(r.value)| == |ids|;
      forall i | 0 <= i < |ids| ensures Ids(r.value)[i] == ids[i] {
        assert r.value[i] == users[ids[i]];
      }
    }
  }

  /** Strictly ascending ids. */
  ghost predicate Increasing(ids: seq<int>) {
    forall i, j :: 0 <= i < j < |ids| ==> ids[i] < ids[j]
  }

  /** `filter(otherUserFriends::contains)`: the ids of `ids` that are in `s`, in order. */
  function KeepMembers(ids: seq<int>, s: set<int>): (r: seq<int>)
    ensures forall x :: x in r <==> x in ids && x in s
    ensures |r| <= |ids|
    ensures Increasing(ids) ==> Increasing(r)
  {
    if ids == [] then []
    else
      var rest := KeepMembers(ids[1..], s);
      if ids[0] in s then
        KeptHeadKeepsIncreasing(ids, rest);
        [ids[0]] + rest
      else
        TailOfIncreasing(ids);
        rest
  }

  /** The tail of a strictly ascending list is strictly ascending. */
  lemma TailOfIncreasing(ids: seq<int>)
    requires ids != []
    ensures Increasing(ids) ==> Increasing(ids[1..])
  {
    if Increasing(ids) {
      forall i, j | 0 <= i < j < |ids[1..]| ensures ids[1..][i] < ids[1..][j] {
        assert ids[1..][i] == ids[i + 1] && ids[1..][j] == ids[j + 1];
      }
    }
  }

  /** Keeping the head in front of a filtered tail keeps a strictly ascending
      list strictly ascending. */
  lemma KeptHeadKeepsIncreasing(ids: seq<int>, rest: seq<int>)
    requires ids != []
    requires forall x :: x in rest ==> x in ids[1..]
    requires Increasing(ids[1..]) ==> Increasing(rest)
    ensures Increasing(ids) ==> Increasing([ids[0]] + rest)
  {
    if Increasing(ids) {
      TailOfIncreasing(ids);
      forall k | 0 <= k < |rest| ensures ids[0] < rest[k] {
        assert rest[k] in rest;
        var j :| 0 <= j < |ids[1..]| && ids[1..][j] == rest[k];
        assert ids[1..][j] == ids[j + 1];
      }
      var r := [ids[0]] + rest;
      forall i, j | 0 <= i < j < |r| ensures r[i] < r[j] {
        if i == 0 {
          assert r[j] == rest[j - 1];
        } else {
          assert r[i] == rest[i - 1] && r[j] == rest[j - 1];
        }
      }
    }
  }

  /** `getFriends(userId)`: NotFound for an unknown user; otherwise the stored
      user for each friend id, in the set's iteration order, failing at the
      first friend id that is not stored. */
  function FriendsOf(users: map<int, User>, userId: int): (r: Result<seq<User>>)
    ensures userId !in users ==> r == Err(NotFound(UserEntity, userId))
    ensures userId in users ==> (r.Ok? <==> users[userId].friends <= users.Keys)
    ensures r.Ok? ==> |r.value| == |users[userId].friends|
  {
    match Lookup(users, UserEntity, userId)
    case Err(e) => Err(e)
    case Ok(user) => LookupAll(users, Ascending(user.friends))
  }

  /** Under the store invariant, `getFriends` returns the friends themselves:
      their ids are the friend set, each once, in ascending order. */
  lemma FriendsOfIds(users: map<int, User>, userId: int)
    requires WellKeyed(users)
    ensures FriendsOf(users, userId).Ok? ==> Ids(FriendsOf(users, userId).value) == Ascending(users[userId].friends)
  {
    if userId in users {
      LookupAllIds(users, Ascending(users[userId].friends));
    }
  }

  /** `getCommonFriends(userId, otherUserId)`: NotFound for the first unknown
      user; otherwise the stored users whose ids are in both friend sets. */
  function CommonFriendsOf(users: map<int, User>, userId: int, otherUserId: int): (r: Result<seq<User>>)
    ensures userId !in users ==> r == Err(NotFound(UserEntity, userId))
    ensures userId in users && otherUserId !in users ==> r == Err(NotFound(UserEntity, otherUserId))
  {
    match Lookup(users, UserEntity, userId)
    case Err(e) => Err(e)
    case Ok(user) =>
      match Lookup(users, UserEntity, otherUserId)
      case Err(e) => Err(e)
      case Ok(other) =>
        LookupAll(users, KeepMembers(Ascending(user.friends), other.friends))
  }

  /** For two stored users, `getCommonFriends` succeeds exactly when every id in
      both friend sets is stored. */
  lemma CommonFriendsOfSucceedsIff(users: map<int, User>, userId: int, otherUserId: int)
    requires userId in users && otherUserId in users
    ensures CommonFriendsOf(users, userId, otherUserId).Ok? <==>
      forall x :: x in users[userId].friends && x in users[otherUserId].friends ==> x in users
  {
    AllStoredIffCommonStored(users, users[userId].friends, users[otherUserId].friends);
  }

  /** Every entry of an id list is a stored user. */
  ghost predicate EntriesStored(users: map<int, User>, ids: seq<int>) {
    forall i :: 0 <= i < |ids| ==> ids[i] in users
  }

  /** Every id in both friend sets is a stored user. */
  ghost predicate CommonStored(users: map<int, User>, a: set<int>, b: set<int>) {
    forall x :: x in a && x in b ==> x in users
  }

  /** Every id of the filtered friend list is stored exactly when every id in
      both friend sets is stored. */
  lemma AllStoredIffCommonStored(users: map<int, User>, a: set<int>, b: set<int>)
    ensures EntriesStored(users, KeepMembers(Ascending(a), b)) <==> CommonStored(users, a, b)
  {
    var sorted := Ascending(a);
    var common := KeepMembers(sorted, b);
    forall i | 0 <= i < |common| ensures common[i] in a && common[i] in b {
      assert common[i] in common;
      var k :| 0 <= k < |sorted| && sorted[k] == common[i];
    }
    forall x | x in a && x in b ensures x in common {
      assert x in sorted;
    }
    ListedStoredGivesAllStored(users, common, a, b);
    AllStoredGivesListedStored(users, common, a, b);
  }

  /** When a list holds every common id, its entries being stored means every
      common id is stored. */
  lemma ListedStoredGivesAllStored(users: map<int, User>, common: seq<int>, a: set<int>, b: set<int>)
    requires forall x :: x in a && x in b ==> x in common
    ensures EntriesStored(users, common) ==> CommonStored(users, a, b)
  {
    if EntriesStored(users, common) {
      forall x | x in a && x in b ensures x in users {
        var i :| 0 <= i < |common| && common[i] == x;
      }
    }
  }

  /** When a list holds only common ids, every common id being stored means its
      entries are stored. */
  lemma AllStoredGivesListedStored(users: map<int, User>, common: seq<int>, a: set<int>, b: set<int>)
    requires forall i :: 0 <= i < |common| ==> common[i] in a && common[i] in b
    ensures CommonStored(users, a, b) ==> EntriesStored(users, common)
  {
    if CommonStored(users, a, b) {
      forall i | 0 <= i < |common| ensures common[i] in users {
        var x := common[i];
        assert x in a && x in b;
      }
    }
  }

  /** Under the store invariant, the common friends are exactly the users whose
      ids lie in both friend sets, each once, in ascending id order. */
  lemma CommonFriendsAreIntersection(users: map<int, User>, userId: int, otherUserId: int)
    requires WellKeyed(users)
    ensures var r := CommonFriendsOf(users, userId, otherUserId);
      r.Ok? ==>
        && (forall x :: x in Ids(r.value) <==> x in users[userId].friends && x in users[otherUserId].friends)
        && (forall i, j :: 0 <= i < j < |r.value| ==> r.value[i].id < r.value[j].id)
  {
    var r := CommonFriendsOf(users, userId, otherUserId);
    if userId in users && otherUserId in users && r.Ok? {
      var a := users[userId].friends;
      var b := users[otherUserId].friends;
      var sorted := Ascending(a);
      var ids := KeepMembers(sorted, b);
      assert r == LookupAll(users, ids);
      LookupAllIds(users, ids);
      assert Ids(r.value) == ids;
      forall x ensures x in ids <==> x in a && x in b {
        if x in sorted {
          var k :| 0 <= k < |sorted| && sorted[k] == x;
        }
      }
      assert Increasing(sorted);
      forall i, j | 0 <= i < j < |r.value| ensures r.value[i].id < r.value[j].id {
        assert r.value[i].id == ids[i] && r.value[j].id == ids[j];
      }
    }
  }

  /** After a successful `addFriend` on a store whose friend ids are all
      stored, each user's friend list succeeds and contains the other. */
  lemma AddFriendThenFriendLists(users: map<int, User>, userId: int, friendId: int)
    requires WellKeyed(users) && FriendsStored(users)
    requires userId in users && friendId in users
    ensures var after := AddFriendEffect(users, userId, friendId).1;
      && FriendsOf(after, userId).Ok? && friendId in Ids(FriendsOf(after, userId).value)
      && FriendsOf(after, friendId).Ok? && userId in Ids(FriendsOf(after, friendId).value)
  {
    var after := AddFriendEffect(users, userId, friendId).1;
    forall a, b | a in after && b in after[a].friends ensures b in after {
      if b != userId && b != friendId {
        assert b in users[a].friends;
      }
    }
    FriendsOfIds(after, userId);
    FriendsOfIds(after, friendId);
  }

  /** After a successful `removeFriend` on a store whose friend ids are all
      stored, neither user's friend list contains the other. */
  lemma RemoveFriendThenFriendLists(users: map<int, User>, userId: int, friendId: int)
    requires WellKeyed(users) && FriendsStored(users)
    requires userId in users && friendId in users
    ensures var after := RemoveFriendEffect(users, userId, friendId).1;
      && FriendsOf(after, userId).Ok? && friendId !in Ids(FriendsOf(after, userId).value)
      && FriendsOf(after, friendId).Ok? && userId !in Ids(FriendsOf(after, friendId).value)
  {
    var after := RemoveFriendEffect(users, userId, friendId).1;
    forall a, b | a in after && b in after[a].friends ensures b in after {
      assert b in users[a].friends;
    }
    FriendsOfIds(after, userId);
    FriendsOfIds(after, friendId);
  }

  // ---------------------------------------------------------------------------
  // The service object

  class UserService {
    const userStorage: InMemoryUserStorage

    constructor (userStorage: InMemoryUserStorage)
      ensures this.userStorage == userStorage
    {
      this.userStorage := userStorage;
    }

    ghost predicate Valid()
      reads userStorage
    {
      userStorage.Valid()
    }

    /** `createUser`: default the name, then store the user under a fresh id. */
    method CreateUser(user: User) returns (r: User)
      requires Valid()
      modifies userStorage
      ensures Valid()
      ensures userStorage.users == Created(old(userStorage.users), WithDefaultName(user))
      ensures r.id == NextId(old(userStorage.users).Keys) && r == WithDefaultName(user).(id := r.id)
    {
      r := userStorage.CreateUser(WithDefaultName(user));
    }

    /** `updateUser`: default the name, then replace the stored entry or fail with NotFound. */
    method UpdateUser(updUser: User) returns (r: Result<User>)
      requires Valid()
      modifies userStorage
      ensures Valid()
      ensures updUser.id !in old(userStorage.users) ==>
        r == Err(NotFound(UserEntity, updUser.id)) && userStorage.users == old(userStorage.users)
      ensures updUser.id in old(userStorage.users) ==>
        && r == Ok(WithDefaultName(updUser))
        && userStorage.users == old(userStorage.users)[updUser.id := WithDefaultName(updUser)]
    {
      r := userStorage.UpdateUser(WithDefaultName(updUser));
    }

    /** `addFriend`: look up the user, add the friend id to its set, then look
        up the friend and add the user id to the friend's set. */
    method AddFriend(userId: int, friendId: int) returns (r: Result<()>)
      requires Valid()
      modifies userStorage
      ensures Valid()
      ensures (r, userStorage.users) == AddFriendEffect(old(userStorage.users), userId, friendId)
    {
      var user1 :- userStorage.GetUserById(userId);
      userStorage.users := userStorage.users[userId := user1.(friends := user1.friends + {friendId})];
      var user2 :- userStorage.GetUserById(friendId);
      userStorage.users := userStorage.users[friendId := user2.(friends := user2.friends + {userId})];
      r := Ok(());
    }

    /** `removeFriend`: the same steps as `addFriend`, removing instead of adding. */
    method RemoveFriend(userId: int, friendId: int) returns (r: Result<()>)
      requires Valid()
      modifies userStorage
      ensures Valid()
      ensures (r, userStorage.users) == RemoveFriendEffect(old(userStorage.users), userId, friendId)
    {
      var user1 :- userStorage.GetUserById(userId);
      userStorage.users := userStorage.users[userId := user1.(friends := user1.friends - {friendId})];
      var user2 :- userStorage.GetUserById(friendId);
      userStorage.users := userStorage.users[friendId := user2.(friends := user2.friends - {userId})];
      r := Ok(());
    }

    /** `getFriends`. */
    method GetFriends(userId: int) returns (r: Result<seq<User>>)
      requires Valid()
      ensures r == FriendsOf(userStorage.users, userId)
      ensures userId !in userStorage.users ==> r == Err(NotFound(UserEntity, userId))
      ensures r.Ok? ==> Ids(r.value) == Ascending(userStorage.users[userId].friends)
    {
      var user :- userStorage.GetUserById(userId);
      r := LookupAll(userStorage.users, Ascending(user.friends));
      FriendsOfIds(userStorage.users, userId);
    }

    /** `getCommonFriends`. */
    method GetCommonFriends(userId: int, otherUserId: int) returns (r: Result<seq<User>>)
      requires Valid()
      ensures r == CommonFriendsOf(userStorage.users, userId, otherUserId)
      ensures userId !in userStorage.users ==> r == Err(NotFound(UserEntity, userId))
      ensures userId in userStorage.users && otherUserId !in userStorage.users ==>
        r == Err(NotFound(UserEntity, otherUserId))
      ensures userId in userStorage.users && otherUserId in userStorage.users ==>
        (r.Ok? <==> forall x :: x in userStorage.users[userId].friends && x in userStorage.users[otherUserId].friends ==>
          x in userStorage.users)
      ensures r.Ok? ==> forall x :: x in Ids(r.value) <==>
        x in userStorage.users[userId].friends && x in userStorage.users[otherUserId].friends
    {
      var user :- userStorage.GetUserById(userId);
      var userFriends := user.friends;
      var other :- userStorage.GetUserById(otherUserId);
      var otherUserFriends := other.friends;
      r := LookupAll(userStorage.users, KeepMembers(Ascending(userFriends), otherUserFriends));
      CommonFriendsOfSucceedsIff(userStorage.users, userId, otherUserId);
      CommonFriendsAreIntersection(userStorage.users, userId, otherUserId);
    }

    /** `getAllUsers`: a pass-through to the store. */
    method GetAllUsers() returns (r: seq<User>)
      ensures r == ValuesByKey(userStorage.users)
      ensures ListsByKey(userStorage.users, r)
    {
      r := userStorage.GetAllUsers();
    }
  }

  /** The last of a strictly increasing run exceeds the first by at least the
      run's length minus one. */
  lemma {:induction false} IncreasingSpread(s: seq<int>)
    requires |s| >= 1
    requires forall i, j :: 0 <= i < j < |s| ==> s[i] < s[j]
    ensures s[|s| - 1] - s[0] >= |s| - 1
    decreases |s|
  {
    if |s| > 1 {
      var init := s[..|s| - 1];
      assert forall i :: 0 <= i < |init| ==> init[i] == s[i];
      IncreasingSpread(init);
      assert s[|s| - 2] < s[|s| - 1];
    }
  }

  /** When the only id in both friend sets is `c`, and `c` is stored, the
      common friends are exactly the user `c`. */
  lemma SingleCommonFriend(users: map<int, User>, userId: int, otherUserId: int, c: int)
    requires WellKeyed(users)
    requires userId in users && otherUserId in users && c in users
    requires forall x :: x in users[userId].friends && x in users[otherUserId].friends <==> x == c
    ensures CommonFriendsOf(users, userId, otherUserId).Ok?
    ensures Ids(CommonFriendsOf(users, userId, otherUserId).value) == [c]
  {
    var r := CommonFriendsOf(users, userId, otherUserId);
    CommonFriendsOfSucceedsIff(users, userId, otherUserId);
    CommonFriendsAreIntersection(users, userId, otherUserId);
    var ids := Ids(r.value);
    assert c in ids;
    assert forall i :: 0 <= i < |ids| ==> ids[i] in ids;
    IncreasingSpread(ids);
    assert ids[|ids| - 1] == c && ids[0] == c;
  }

  /** Three stored users 1, 2 and 3 without friends; `addFriend(1, 2)` and
      `addFriend(3, 2)`; the common friends of 1 and 3 are exactly user 2. */
  lemma CommonFriendsScenario(users: map<int, User>)
    requires WellKeyed(users) && 1 in users && 2 in users && 3 in users
    requires users[1].friends == {} && users[2].friends == {} && users[3].friends == {}
    ensures var after := AddFriendEffect(AddFriendEffect(users, 1, 2).1, 3, 2).1;
      CommonFriendsOf(after, 1, 3).Ok? && Ids(CommonFriendsOf(after, 1, 3).value) == [2]
  {
    var m1 := AddFriendEffect(users, 1, 2).1;
    assert m1[1].friends == {2} && m1[2].friends == {1} && m1[3].friends == {};
    var after := AddFriendEffect(m1, 3, 2).1;
    assert after[1].friends == {2} && after[3].friends == {2};
    SingleCommonFriend(after, 1, 3, 2);
  }
}
