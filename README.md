# Filmorate in-memory core, modelled in Dafny

Filmorate is a small film-rating service. Users sign up, befriend each other
and like films. The service lists a user's friends, the friends two users share,
and the most-liked films. This project models the service's core:

- the two in-memory stores (`InMemoryUserStorage`, `InMemoryFilmStorage`).
  Each is a map from identifier to entity. A new entity gets the largest key
  plus one as its identifier.
- `UserService`, which fills in a missing name from the login and keeps the
  friend sets.
- `FilmService`, which keeps the like sets and ranks films by likes.
- `ReleaseDateValidator`, which rejects release dates before 28 December 1895.

The model's form:

- Users and films are datatypes. The stores and services are classes whose
  methods reassign a `map` field, as the Java code updates its `HashMap`.
- The four relation-changing service operations (`addFriend`, `removeFriend`,
  `addLike`, `removeLike`) each have two parts:
  - a pure "effect" function, which gives the outcome and the new map;
  - a method, which performs the same steps on the store and is proved equal
    to that function.
- The create and update operations state the new map in the method's own
  contract (`Created(old, ...)`, or the entry replaced under its key).
- The lemmas about the effect functions state what the code promises:
  - a successful `addFriend` leaves each user in the other's set;
  - a failed `addFriend` leaves a one-sided entry behind;
  - liking twice is liking once;
  - a like followed by its removal restores the state;
  - the most-rated list is the top of the ranking.
- An exception becomes an `Err` value of the result type:
  `NotFoundException` becomes `NotFound(entity, id)`, and the
  `IllegalArgumentException` of `Stream.limit` becomes `IllegalArgument(count)`.

Files:

- `identifiers.dfy`: identifier generation and key-ordered listing.
- `release_date_validator.dfy`: dates and the release-date rule.
- `entities.dfy`: users, films, errors and lookup.
- `user_storage.dfy`, `film_storage.dfy`: the two stores.
- `user_service.dfy`, `film_service.dfy`: the two services.

`updateUser` and `updateFilm` put the argument into the map whole,
relation set included. So an update replaces the stored friend set or like
set, and does not preserve it (`UserServices.UpdateCanBreakSymmetry`). A
request body arrives with an empty set, because the set is ignored by JSON, so
an update through the web layer clears the set.

## Model

| member | source | states |
|---|---|---|
| Identifiers.NextId | src/main/java/ru/yandex/practicum/filmorate/storage/InMemoryUserStorage.java:17-24 | 1 when there are no keys; otherwise one more than an existing key, greater than every key, so never an existing key |
| Identifiers.NextIdOfRange | src/main/java/ru/yandex/practicum/filmorate/storage/InMemoryUserStorage.java:17-24 | on the key set 1..n the next id is n + 1 |
| Identifiers.MaxKey | src/main/java/ru/yandex/practicum/filmorate/storage/InMemoryUserStorage.java:18-22 | `max()` of a non-empty key set is a key and no key exceeds it |
| Identifiers.Ascending | src/main/java/ru/yandex/practicum/filmorate/service/UserService.java:65 | the iteration order of an id set: every element exactly once, strictly ascending |
| Identifiers.ValuesByKey | src/main/java/ru/yandex/practicum/filmorate/storage/InMemoryUserStorage.java:54-57 | `values()` has one entry per key, the i-th being the entry under the i-th key in ascending order |
| Identifiers.ValuesByKeyContents | src/main/java/ru/yandex/practicum/filmorate/storage/InMemoryUserStorage.java:54-57 | `values()` lists one entry per key, in key order, and every stored entry occurs |
| Identifiers.ListedIsStored | src/main/java/ru/yandex/practicum/filmorate/storage/InMemoryFilmStorage.java:53-56 | every listed value is the entry under some key |
| ReleaseDates.IsBefore | src/main/java/ru/yandex/practicum/filmorate/util/ReleaseDateValidator.java:13 | strict precedence agrees with `LocalDate.compareTo` being negative |
| ReleaseDates.IsAfter | src/main/java/ru/yandex/practicum/filmorate/util/ReleaseDateValidator.java:13 | `isAfter` is `compareTo` positive, and excludes both precedence and equality |
| ReleaseDates.IsEqual | src/main/java/ru/yandex/practicum/filmorate/util/ReleaseDateValidator.java:13 | `isEqual` is `compareTo` zero |
| ReleaseDates.IsValid | src/main/java/ru/yandex/practicum/filmorate/util/ReleaseDateValidator.java:12-14 | `isAfter(min)` or `isEqual(min)` holds exactly when the date compares at or above 1895-12-28 |
| ReleaseDates.GetMinReleaseDate | src/main/java/ru/yandex/practicum/filmorate/util/ReleaseDateValidator.java:16-18 | returns 1895-12-28, a real calendar date, and `isValid` holds exactly for dates after it or equal to it |
| ReleaseDates.ValidIffNotBeforeMinimum | src/main/java/ru/yandex/practicum/filmorate/util/ReleaseDateValidator.java:9-14 | a date is valid iff it is not earlier than 1895-12-28 |
| ReleaseDates.MinimumIsValid | src/main/java/ru/yandex/practicum/filmorate/util/ReleaseDateValidator.java:13 | the boundary date is valid, and not through `isAfter` |
| ReleaseDates.PreviousDay | src/test/java/ru/yandex/practicum/filmorate/controller/FilmControllerTest.java:71-72 | `minusDays(1)` of a calendar date is a calendar date strictly before it, and no calendar date lies between the two |
| ReleaseDates.DayBeforeMinimumIsInvalid | src/test/java/ru/yandex/practicum/filmorate/controller/FilmControllerTest.java:69-78 | the day before the minimum is 1895-12-27 and is rejected |
| ReleaseDates.ValidIsUpwardClosed | src/main/java/ru/yandex/practicum/filmorate/util/ReleaseDateValidator.java:13 | any date after a valid date is valid |
| Entities.NewUser | src/main/java/ru/yandex/practicum/filmorate/model/User.java:38-40 | a new user has id 0 and an empty friend set |
| Entities.NewFilm | src/main/java/ru/yandex/practicum/filmorate/model/Film.java:40-42 | a new film has id 0 and an empty like set |
| Entities.Lookup | src/main/java/ru/yandex/practicum/filmorate/storage/InMemoryUserStorage.java:59-66 | the stored entry for a present key; NotFound(entity, id) exactly when the key is absent |
| UserStore.Created | src/main/java/ru/yandex/practicum/filmorate/storage/InMemoryUserStorage.java:26-38 | the user is stamped with the next id and filed under it; the key set gains exactly that id, the size grows by one, old entries are kept and the id invariant is preserved |
| UserStore.NextIdAfterCreate | src/main/java/ru/yandex/practicum/filmorate/storage/InMemoryUserStorage.java:17-34 | after a creation the next id is one more than the id just handed out |
| UserStore.CreateAll | src/main/java/ru/yandex/practicum/filmorate/storage/InMemoryUserStorage.java:26-38 | n successive creations grow the store by n |
| UserStore.CreateAllFromEmpty | src/test/java/ru/yandex/practicum/filmorate/controller/UserControllerTest.java:187-233 | on a fresh store, n creations hand out exactly the ids 1..n in call order, and the i-th created user is filed under i |
| UserStore.CreateAllFrom | src/main/java/ru/yandex/practicum/filmorate/storage/InMemoryUserStorage.java:17-34 | creations on the key set 1..n file the j-th new user under n + 1 + j and keep the old entries |
| UserStore.NeverIssuedIdIsAbsent | src/test/java/ru/yandex/practicum/filmorate/controller/UserControllerTest.java:177-185 | an id never handed out on a fresh store is not a key, so an update with it fails |
| UserStore.InMemoryUserStorage.constructor | src/main/java/ru/yandex/practicum/filmorate/storage/InMemoryUserStorage.java:15 | the store starts empty |
| UserStore.InMemoryUserStorage.GetNextId | src/main/java/ru/yandex/practicum/filmorate/storage/InMemoryUserStorage.java:17-24 | 1 on an empty store; never an existing key; greater than every key |
| UserStore.InMemoryUserStorage.CreateUser | src/main/java/ru/yandex/practicum/filmorate/storage/InMemoryUserStorage.java:26-38 | the new map is `Created(old, user)`; the argument with the fresh id is returned and is what is stored |
| UserStore.InMemoryUserStorage.UpdateUser | src/main/java/ru/yandex/practicum/filmorate/storage/InMemoryUserStorage.java:40-51 | an unknown id gives NotFound and leaves the map unchanged; otherwise the whole entry is replaced by the argument, which is returned, and the keys stay the same |
| UserStore.InMemoryUserStorage.GetAllUsers | src/main/java/ru/yandex/practicum/filmorate/storage/InMemoryUserStorage.java:53-57 | exactly the stored users, one per key, in key order |
| UserStore.InMemoryUserStorage.GetUserById | src/main/java/ru/yandex/practicum/filmorate/storage/InMemoryUserStorage.java:59-66 | the stored user, or NotFound for an absent id |
| FilmStore.Created | src/main/java/ru/yandex/practicum/filmorate/storage/InMemoryFilmStorage.java:26-38 | the film is stamped with the next id and filed under it; the size grows by one, old entries are kept and the id invariant is preserved |
| FilmStore.NextIdAfterCreate | src/main/java/ru/yandex/practicum/filmorate/storage/InMemoryFilmStorage.java:17-34 | successive creations hand out ids that go up by one |
| FilmStore.NewFilmStoredWithoutLikes | src/main/java/ru/yandex/practicum/filmorate/model/Film.java:40-42 | a freshly constructed film is stored with an empty like set |
| FilmStore.InMemoryFilmStorage.constructor | src/main/java/ru/yandex/practicum/filmorate/storage/InMemoryFilmStorage.java:15 | the store starts empty |
| FilmStore.InMemoryFilmStorage.GetNextId | src/main/java/ru/yandex/practicum/filmorate/storage/InMemoryFilmStorage.java:17-24 | 1 on an empty store; never an existing key; greater than every key |
| FilmStore.InMemoryFilmStorage.CreateFilm | src/main/java/ru/yandex/practicum/filmorate/storage/InMemoryFilmStorage.java:26-38 | the new map is `Created(old, film)`; the argument with the fresh id is returned and stored |
| FilmStore.InMemoryFilmStorage.UpdateFilm | src/main/java/ru/yandex/practicum/filmorate/storage/InMemoryFilmStorage.java:40-51 | an unknown id gives NotFound and leaves the map unchanged; otherwise the whole entry, like set included, is replaced by the argument, which is returned |
| FilmStore.InMemoryFilmStorage.GetAllFilms | src/main/java/ru/yandex/practicum/filmorate/storage/InMemoryFilmStorage.java:53-56 | exactly the stored films, one per key, in key order |
| FilmStore.InMemoryFilmStorage.GetFilmById | src/main/java/ru/yandex/practicum/filmorate/storage/InMemoryFilmStorage.java:58-65 | the stored film, or NotFound for an absent id |
| FilmStore.UpdateOnEmptyStoreFails | src/test/java/ru/yandex/practicum/filmorate/controller/FilmControllerTest.java:133-141 | an update on a fresh store fails with NotFound for the film's id |
| UserServices.IsWhitespace | src/main/java/ru/yandex/practicum/filmorate/service/UserService.java:21 | `Character.isWhitespace`: a space, line or paragraph separator that is not a no-break space, or an ASCII control 9-13 or 28-31 |
| UserServices.IndexOfNonWhitespace | src/main/java/ru/yandex/practicum/filmorate/service/UserService.java:21 | the first index whose character is not whitespace, or the length; every earlier character is whitespace |
| UserServices.IsBlank | src/main/java/ru/yandex/practicum/filmorate/service/UserService.java:21 | `String.isBlank`: the first non-whitespace index is the length |
| UserServices.WithDefaultName | src/main/java/ru/yandex/practicum/filmorate/service/UserService.java:20-34 | a null or blank name becomes the login; any other name is kept; no other field changes |
| UserServices.WithDefaultNameIdempotent | src/main/java/ru/yandex/practicum/filmorate/service/UserService.java:20-34 | defaulting twice is defaulting once |
| UserServices.DefaultedNameIsNotBlank | src/test/java/ru/yandex/practicum/filmorate/controller/UserControllerTest.java:68-80 | with a non-blank login, the name after defaulting is present and not blank |
| UserServices.WithFriend | src/main/java/ru/yandex/practicum/filmorate/service/UserService.java:40 | one user's friend set gains one id; nothing else changes |
| UserServices.WithoutFriend | src/main/java/ru/yandex/practicum/filmorate/service/UserService.java:52-54 | one user's friend set loses one id; nothing else changes |
| UserServices.AddFriendEffect | src/main/java/ru/yandex/practicum/filmorate/service/UserService.java:36-48 | success iff both users exist. A missing first user gives NotFound and no change. A missing second user gives NotFound after the first user's set has gained the id. On success both sets gain the other id and no other user changes |
| UserServices.RemoveFriendEffect | src/main/java/ru/yandex/practicum/filmorate/service/UserService.java:50-60 | the same check order as `addFriend`, with removal instead of addition |
| UserServices.AddFriendMakesMutualFriends | src/main/java/ru/yandex/practicum/filmorate/service/UserService.java:36-48 | after a successful `addFriend` each user is in the other's set |
| UserServices.AddFriendIdempotent | src/main/java/ru/yandex/practicum/filmorate/service/UserService.java:36-48 | repeating a successful `addFriend` changes nothing |
| UserServices.AddFriendKeepsSymmetry | src/main/java/ru/yandex/practicum/filmorate/service/UserService.java:40-46 | a successful `addFriend` keeps a symmetric friendship relation symmetric |
| UserServices.FailedAddFriendBreaksSymmetry | src/main/java/ru/yandex/practicum/filmorate/service/UserService.java:38-44 | `addFriend` to a missing user fails yet leaves a one-sided entry, so the relation is no longer symmetric |
| UserServices.RemoveFriendEndsFriendship | src/main/java/ru/yandex/practicum/filmorate/service/UserService.java:50-60 | after a successful `removeFriend` neither user is in the other's set |
| UserServices.RemoveFriendOfNonFriendIsNoOp | src/main/java/ru/yandex/practicum/filmorate/service/UserService.java:50-60 | `removeFriend` on two users who are not friends changes nothing |
| UserServices.RemoveFriendKeepsSymmetry | src/main/java/ru/yandex/practicum/filmorate/service/UserService.java:52-59 | a successful `removeFriend` keeps a symmetric relation symmetric |
| UserServices.AddThenRemoveFriendRestores | src/main/java/ru/yandex/practicum/filmorate/service/UserService.java:36-60 | `addFriend` then `removeFriend` on two non-friends restores the user map |
| UserServices.UpdateCanBreakSymmetry | src/main/java/ru/yandex/practicum/filmorate/storage/InMemoryUserStorage.java:44-46 | replacing a user who has a friend with a copy without friends leaves the relation asymmetric |
| UserServices.LookupAll | src/main/java/ru/yandex/practicum/filmorate/service/UserService.java:66 | the stored user for every id, in order; otherwise NotFound for the first id that is not stored |
| UserServices.LookupAllIds | src/main/java/ru/yandex/practicum/filmorate/service/UserService.java:66 | under the id invariant, the looked-up users carry exactly the requested ids |
| UserServices.KeepMembers | src/main/java/ru/yandex/practicum/filmorate/service/UserService.java:78-79 | the filter keeps exactly the ids that are in the other set, and keeps an ascending order ascending |
| UserServices.FriendsOf | src/main/java/ru/yandex/practicum/filmorate/service/UserService.java:62-68 | NotFound for an unknown user. For a known user it succeeds iff every friend id is stored, and then lists one user per friend |
| UserServices.FriendsOfIds | src/main/java/ru/yandex/practicum/filmorate/service/UserService.java:62-68 | the users returned are the friends themselves, each once, in ascending id order |
| UserServices.CommonFriendsOf | src/main/java/ru/yandex/practicum/filmorate/service/UserService.java:70-82 | NotFound for the first unknown user, checking `userId` before `otherUserId` |
| UserServices.CommonFriendsOfSucceedsIff | src/main/java/ru/yandex/practicum/filmorate/service/UserService.java:70-82 | for two stored users the query succeeds iff every id in both friend sets is stored |
| UserServices.CommonFriendsAreIntersection | src/main/java/ru/yandex/practicum/filmorate/service/UserService.java:70-82 | the ids of the common friends are exactly the intersection of the two friend sets, each once, in ascending order |
| UserServices.AddFriendThenFriendLists | src/test/java/ru/yandex/practicum/filmorate/controller/UserControllerTest.java:269-329 | after `addFriend(a, b)` both friend lists succeed, and each contains the other user |
| UserServices.RemoveFriendThenFriendLists | src/test/java/ru/yandex/practicum/filmorate/controller/UserControllerTest.java:331-368 | after `removeFriend(a, b)` neither friend list contains the other user, so a user whose one friend was removed has an empty list |
| UserServices.SingleCommonFriend | src/main/java/ru/yandex/practicum/filmorate/service/UserService.java:70-82 | when one stored id is the whole intersection, the result is exactly that user |
| UserServices.CommonFriendsScenario | src/test/java/ru/yandex/practicum/filmorate/controller/UserControllerTest.java:370-426 | users 1, 2 and 3; 1 and 2 become friends, then 3 and 2; the common friends of 1 and 3 are exactly user 2 |
| UserServices.UserService.constructor | src/main/java/ru/yandex/practicum/filmorate/service/UserService.java:16-18 | the service works on the store it is given |
| UserServices.UserService.CreateUser | src/main/java/ru/yandex/practicum/filmorate/service/UserService.java:20-26 | stores the name-defaulted user under a fresh id and returns it |
| UserServices.UserService.UpdateUser | src/main/java/ru/yandex/practicum/filmorate/service/UserService.java:28-34 | NotFound with no change for an unknown id; otherwise the name-defaulted user replaces the entry |
| UserServices.UserService.AddFriend | src/main/java/ru/yandex/practicum/filmorate/service/UserService.java:36-48 | outcome and new state are those of `AddFriendEffect` |
| UserServices.UserService.RemoveFriend | src/main/java/ru/yandex/practicum/filmorate/service/UserService.java:50-60 | outcome and new state are those of `RemoveFriendEffect` |
| UserServices.UserService.GetFriends | src/main/java/ru/yandex/practicum/filmorate/service/UserService.java:62-68 | NotFound for an unknown user; otherwise the friends, in ascending id order |
| UserServices.UserService.GetCommonFriends | src/main/java/ru/yandex/practicum/filmorate/service/UserService.java:70-82 | NotFound for the first unknown user; otherwise exactly the users in both friend sets |
| UserServices.UserService.GetAllUsers | src/main/java/ru/yandex/practicum/filmorate/service/UserService.java:84-86 | the store's users, one per key |
| FilmServices.AddLikeEffect | src/main/java/ru/yandex/practicum/filmorate/service/FilmService.java:30-37 | an unknown user, then an unknown film, gives NotFound with no change. Otherwise only that film's like set gains the user's id |
| FilmServices.RemoveLikeEffect | src/main/java/ru/yandex/practicum/filmorate/service/FilmService.java:39-46 | the same checks as `addLike`; otherwise only that film's like set loses the user's id |
| FilmServices.AddLikeCountsOnce | src/main/java/ru/yandex/practicum/filmorate/service/FilmService.java:36 | a user's first like raises the film's like count by one |
| FilmServices.AddLikeIdempotent | src/main/java/ru/yandex/practicum/filmorate/service/FilmService.java:30-37 | liking twice is liking once |
| FilmServices.RemoveLikeOfNonLikerIsNoOp | src/main/java/ru/yandex/practicum/filmorate/service/FilmService.java:39-46 | removing a like that was never given changes nothing |
| FilmServices.AddThenRemoveLikeRestores | src/main/java/ru/yandex/practicum/filmorate/service/FilmService.java:30-46 | a new like followed by its removal restores the film map |
| FilmServices.AddLikeKeepsLikesStored | src/main/java/ru/yandex/practicum/filmorate/service/FilmService.java:32-36 | because the user is checked first, every like stays attributed to a stored user |
| FilmServices.RemoveLikeKeepsLikesStored | src/main/java/ru/yandex/practicum/filmorate/service/FilmService.java:41-45 | `removeLike` keeps every like attributed to a stored user |
| FilmServices.InsertByLikes | src/main/java/ru/yandex/practicum/filmorate/service/FilmService.java:51 | insertion adds exactly the one film (as a multiset) |
| FilmServices.SortByLikes | src/main/java/ru/yandex/practicum/filmorate/service/FilmService.java:51 | the sort is a permutation of its input |
| FilmServices.InsertKeepsSorted | src/main/java/ru/yandex/practicum/filmorate/service/FilmService.java:51 | insertion into a list ordered by descending like count keeps it ordered |
| FilmServices.InsertKeepsDistinct | src/main/java/ru/yandex/practicum/filmorate/service/FilmService.java:51 | insertion of a new film keeps a list free of duplicates |
| FilmServices.SortByLikesSorts | src/main/java/ru/yandex/practicum/filmorate/service/FilmService.java:51 | the sorted list is non-increasing in like count |
| FilmServices.SortByLikesKeepsDistinct | src/main/java/ru/yandex/practicum/filmorate/service/FilmService.java:51 | sorting keeps a duplicate-free list duplicate-free |
| FilmServices.MostRated | src/main/java/ru/yandex/practicum/filmorate/service/FilmService.java:48-54 | the result has min(count, number of films) films |
| FilmServices.MostRatedMembers | src/main/java/ru/yandex/practicum/filmorate/service/FilmService.java:50-53 | every listed film is one of the stored films |
| FilmServices.ListedFilmIsStored | src/main/java/ru/yandex/practicum/filmorate/storage/InMemoryFilmStorage.java:53-56 | under the id invariant a listed film is filed under its own id |
| FilmServices.ValuesByKeyDistinct | src/main/java/ru/yandex/practicum/filmorate/storage/InMemoryFilmStorage.java:53-56 | under the id invariant no film is listed twice |
| FilmServices.MostRatedIsRanking | src/main/java/ru/yandex/practicum/filmorate/service/FilmService.java:50-53 | the result is non-increasing in like count, has no duplicates and holds only stored films under their ids |
| FilmServices.MostRatedIsTop | src/main/java/ru/yandex/practicum/filmorate/service/FilmService.java:50-53 | a stored film left out of the result has no more likes than any film in it |
| FilmServices.MostRatedWithLargeCountListsAll | src/main/java/ru/yandex/practicum/filmorate/service/FilmService.java:50-53 | with a count of at least the number of films, the result is a permutation of all stored films |
| FilmServices.MoreLikedOfTwoIsTop | src/main/java/ru/yandex/practicum/filmorate/service/FilmService.java:48-54 | of two stored films, the one with more likes is the single most rated |
| FilmServices.MostRatedScenario | src/main/java/ru/yandex/practicum/filmorate/service/FilmService.java:30-54 | films 1 and 2. Users 1 and 2 like film 1 and user 1 likes film 2. `getMostRatedFilms(1)` is then film 1 alone |
| FilmServices.FilmService.constructor | src/main/java/ru/yandex/practicum/filmorate/service/FilmService.java:18-20 | the service works on the two stores it is given |
| FilmServices.FilmService.CreateFilm | src/main/java/ru/yandex/practicum/filmorate/service/FilmService.java:22-24 | exactly the film store's `createFilm` |
| FilmServices.FilmService.UpdateFilm | src/main/java/ru/yandex/practicum/filmorate/service/FilmService.java:26-28 | exactly the film store's `updateFilm` |
| FilmServices.FilmService.AddLike | src/main/java/ru/yandex/practicum/filmorate/service/FilmService.java:30-37 | outcome and new film map are those of `AddLikeEffect`; the user store is not changed |
| FilmServices.FilmService.RemoveLike | src/main/java/ru/yandex/practicum/filmorate/service/FilmService.java:39-46 | outcome and new film map are those of `RemoveLikeEffect` |
| FilmServices.FilmService.GetMostRatedFilms | src/main/java/ru/yandex/practicum/filmorate/service/FilmService.java:48-54 | a negative count gives IllegalArgument. Otherwise the result is `MostRated`: min(count, number of films) stored films, non-increasing in likes, with no duplicates. Nothing changes |
| FilmServices.FilmService.GetFilmById | src/main/java/ru/yandex/practicum/filmorate/service/FilmService.java:56-58 | the stored film, or NotFound |
| FilmServices.FilmService.GetAllFilms | src/main/java/ru/yandex/practicum/filmorate/service/FilmService.java:60-62 | the store's films, one per key |

## Left out

- Aliasing of stored objects: the Java stores keep and return references, so a caller that later mutates a returned `User` or `Film` changes the stored one. The model has values and no references. The in-place `getFriendsIdentifiers().add(...)` on a stored object is modelled as replacing that map entry with an updated copy. `getAllUsers` and `getAllFilms` return a live `values()` view of the map, which later changes show through; the model returns a snapshot sequence.
- Argument mutation: the source modifies the argument in place in three operations. `createUser` and `createFilm` stamp it with `setId` in the store. `UserService.createUser` and `UserService.updateUser` call `setName` in the service; for `updateUser` this happens before the store's lookup, so a failed update has still renamed the caller's object. The model returns the stamped or defaulted copy and states that it is what the store holds; it does not model the caller's object. `updateFilm` changes nothing in its argument.
- Hash order: `HashMap.values()` and `HashSet` iteration order is unspecified in Java. The model fixes it as ascending key order (`Identifiers.Ascending`). So the order of `getAllUsers`, `getAllFilms` and `getFriends`, and the order among films with equal like counts, are claims about this model only.
- Identifiers.NextId: does not model the wrap-around of Java `int` at 2^31 - 1, because identifiers are unbounded integers here.
- FilmServices.SortByLikes: stability and the order among equally liked films are not stated, because the input order of `HashMap.values()` is itself unspecified.
- FilmStore.NextIdAfterCreate: for films only the one-step form is proved (each creation hands out the previous id plus one). The statement for a whole run of creations is proved for the user store only (`UserStore.CreateAllFromEmpty`).
- Null values are not modelled: identifiers (`Integer` arguments) and `count` are plain integers, a release date is always present (`isValid(null)` throws `NullPointerException` in the source), and a login is always present (a null login with a blank name gives a null name in the source).
- The controllers, `ControllerAdvice`, Bean Validation of request bodies, the mapping of errors to HTTP statuses, JSON mapping, logging and the Spring wiring are out of scope. The release-date rule is modelled as the validator's predicate only.
- Concurrency: the stores are shared, unsynchronized `HashMap`s in the source. The model is sequential.
- The validation message on `Film.releaseDate` names 28.12.1985, while the constant is 1895-12-28. The model follows the constant.
