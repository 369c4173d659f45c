/** The film service: likes recorded on the film store, checked against the
    user store, and the most-liked-films query. */
module FilmServices {
  import opened Entities
  import opened Identifiers
  import opened FilmStore
  import UserStore

  // ---------------------------------------------------------------------------
  // Likes

  /** Every like on a stored film comes from a stored user. */
  ghost predicate LikesStored(films: map<int, Film>, users: map<int, User>) {
    forall f, u :: f in films && u in films[f].likes ==> u in users
  }

  /** `addLike(filmId, userId)`: the outcome and the new film map. The user is
      looked up first, then the film; only when both exist does the film's like
      set gain the user's id. */
  function AddLikeEffect(films: map<int, Film>, users: map<int, User>, filmId: int, userId: int): (r: (Result<()>, map<int, Film>))
    ensures r.1.Keys == films.Keys
    ensures r.0.Ok? <==> userId in users && filmId in films
    ensures userId !in users ==> r == (Err(NotFound(UserEntity, userId)), films)
    ensures userId in users && filmId !in films ==> r == (Err(NotFound(FilmEntity, filmId)), films)
    ensures r.0.Ok? ==> r.1[filmId].likes == films[filmId].likes + {userId}
    ensures r.0.Ok? ==> r.1[filmId] == films[filmId].(likes := r.1[filmId].likes)
    ensures forall k :: k in films && k != filmId ==> r.1[k] == films[k]
    ensures WellKeyed(films) ==> WellKeyed(r.1)
  {
    match Lookup(users, UserEntity, userId)
    case Err(e) => (Err(e), films)
    case Ok(_) =>
      match Lookup(films, FilmEntity, filmId)
      case Err(e) => (Err(e), films)
      case Ok(film) => (Ok(()), films[filmId := film.(likes := film.likes + {userId})])
  }

  /** `removeLike(filmId, userId)`: the same checks as `addLike`, then the
      user's id leaves the film's like set. */
  function RemoveLikeEffect(films: map<int, Film>, users: map<int, User>, filmId: int, userId: int): (r: (Result<()>, map<int, Film>))
    ensures r.1.Keys == films.Keys
    ensures r.0.Ok? <==> userId in users && filmId in films
    ensures userId !in users ==> r == (Err(NotFound(UserEntity, userId)), films)
    ensures userId in users && filmId !in films ==> r == (Err(NotFound(FilmEntity, filmId)), films)
    ensures r.0.Ok? ==> r.1[filmId].likes == films[filmId].likes - {userId}
    ensures r.0.Ok? ==> r.1[filmId] == films[filmId].(likes := r.1[filmId].likes)
    ensures forall k :: k in films && k != filmId ==> r.1[k] == films[k]
    ensures WellKeyed(films) ==> WellKeyed(r.1)
  {
    match Lookup(users, UserEntity, userId)
    case Err(e) => (Err(e), films)
    case Ok(_) =>
      match Lookup(films, FilmEntity, filmId)
      case Err(e) => (Err(e), films)
      case Ok(film) => (Ok(()), films[filmId := film.(likes := film.likes - {userId})])
  }

  /** A first like from a user raises the film's like count by one. */
  lemma AddLikeCountsOnce(films: map<int, Film>, users: map<int, User>, filmId: int, userId: int)
    requires userId in users && filmId in films && userId !in films[filmId].likes
    ensures |AddLikeEffect(films, users, filmId, userId).1[filmId].likes| == |films[filmId].likes| + 1
  {
  }

  /** Liking twice is liking once: the like set is a set. */
  lemma AddLikeIdempotent(films: map<int, Film>, users: map<int, User>, filmId: int, userId: int)
    requires userId in users && filmId in films
    ensures var after := AddLikeEffect(films, users, filmId, userId).1;
      AddLikeEffect(after, users, filmId, userId) == (Ok(()), after)
  {
    var after := AddLikeEffect(films, users, filmId, userId).1;
    var again := AddLikeEffect(after, users, filmId, userId).1;
    assert userId in after[filmId].likes;
    assert again[filmId] == after[filmId];
    assert again == after;
  }

  /** Removing a like that was never given changes nothing. */
  lemma RemoveLikeOfNonLikerIsNoOp(films: map<int, Film>, users: map<int, User>, filmId: int, userId: int)
    requires userId in users && filmId in films && userId !in films[filmId].likes
    ensures RemoveLikeEffect(films, users, filmId, userId) == (Ok(()), films)
  {
    var after := RemoveLikeEffect(films, users, filmId, userId).1;
    assert after[filmId] == films[filmId];
    assert after == films;
  }

  /** A like followed by its removal restores the film map. */
  lemma AddThenRemoveLikeRestores(films: map<int, Film>, users: map<int, User>, filmId: int, userId: int)
    requires userId in users && filmId in films && userId !in films[filmId].likes
    ensures RemoveLikeEffect(AddLikeEffect(films, users, filmId, userId).1, users, filmId, userId) == (Ok(()), films)
  {
    var after := RemoveLikeEffect(AddLikeEffect(films, users, filmId, userId).1, users, filmId, userId).1;
    assert after[filmId] == films[filmId];
    assert after == films;
  }

  /** Because the user is checked before anything changes, `addLike` never
      records a like from an unknown user. */
  lemma AddLikeKeepsLikesStored(films: map<int, Film>, users: map<int, User>, filmId: int, userId: int)
    requires LikesStored(films, users)
    ensures LikesStored(AddLikeEffect(films, users, filmId, userId).1, users)
  {
    var after := AddLikeEffect(films, users, filmId, userId).1;
    forall f, u | f in after && u in after[f].likes ensures u in users {
      if f != filmId || u != userId {
        assert u in films[f].likes;
      }
    }
  }

  /** `removeLike` keeps every remaining like attributed to a stored user. */
  lemma RemoveLikeKeepsLikesStored(films: map<int, Film>, users: map<int, User>, filmId: int, userId: int)
    requires LikesStored(films, users)
    ensures LikesStored(RemoveLikeEffect(films, users, filmId, userId).1, users)
  {
    var after := RemoveLikeEffect(films, users, filmId, userId).1;
    forall f, u | f in after && u in after[f].likes ensures u in users {
      assert u in films[f].likes;
    }
  }

  // ---------------------------------------------------------------------------
  // Most-liked films

  /** Ordered by like count, most liked first
      (`comparingInt(likes.size()).reversed()`). */
  ghost predicate SortedByLikes(s: seq<Film>) {
    forall i, j :: 0 <= i < j < |s| ==> |s[i].likes| >= |s[j].likes|
  }

  /** No film occurs twice. */
  ghost predicate NoDuplicates(s: seq<Film>) {
    forall i, j :: 0 <= i < j < |s| ==> s[i] != s[j]
  }

  /** Inserts `f` ahead of the first film with no more likes than `f`. */
  function InsertByLikes(f: Film, s: seq<Film>): (r: seq<Film>)
    ensures multiset(r) == multiset(s) + multiset{f}
    ensures |r| == |s| + 1
    ensures forall x :: x in r <==> x == f || x in s
  {
    if s == [] || |s[0].likes| <= |f.likes| then [f] + s
    else
      var rest := InsertByLikes(f, s[1..]);
      assert s == [s[0]] + s[1..];
      [s[0]] + rest
  }

  /** `sorted(comparingInt(likes.size()).reversed())`: insertion of each film
      into the sorted rest. */
  function SortByLikes(s: seq<Film>): (r: seq<Film>)
    ensures multiset(r) == multiset(s)
    ensures |r| == |s|
  {
    if s == [] then []
    else
      assert s == [s[0]] + s[1..];
      InsertByLikes(s[0], SortByLikes(s[1..]))
  }

  /** A film with at least the likes of every film in a sorted list can head it. */
  lemma SortedCons(x: Film, s: seq<Film>)
    requires SortedByLikes(s)
    requires forall y :: y in s ==> |y.likes| <= |x.likes|
    ensures SortedByLikes([x] + s)
  {
    forall i, j | 0 <= i < j < |[x] + s| ensures |([x] + s)[i].likes| >= |([x] + s)[j].likes| {
      assert ([x] + s)[j] == s[j - 1];
      assert s[j - 1] in s;
      if i > 0 { assert ([x] + s)[i] == s[i - 1]; }
    }
  }

  /** A film not in a duplicate-free list can head it. */
  lemma DistinctCons(x: Film, s: seq<Film>)
    requires NoDuplicates(s)
    requires x !in s
    ensures NoDuplicates([x] + s)
  {
    forall i, j | 0 <= i < j < |[x] + s| ensures ([x] + s)[i] != ([x] + s)[j] {
      assert ([x] + s)[j] == s[j - 1];
      assert s[j - 1] in s;
      if i > 0 { assert ([x] + s)[i] == s[i - 1]; }
    }
  }

  /** The tail of a sorted list is sorted and no film in it has more likes than the head. */
  lemma SortedTail(s: seq<Film>)
    requires SortedByLikes(s) && s != []
    ensures SortedByLikes(s[1..])
    ensures forall y :: y in s[1..] ==> |y.likes| <= |s[0].likes|
  {
    forall i, j | 0 <= i < j < |s[1..]| ensures |s[1..][i].likes| >= |s[1..][j].likes| {
      assert s[1..][i] == s[i + 1] && s[1..][j] == s[j + 1];
    }
    forall y | y in s[1..] ensures |y.likes| <= |s[0].likes| {
      var j :| 0 <= j < |s[1..]| && s[1..][j] == y;
      assert s[1..][j] == s[j + 1];
    }
  }

  /** The tail of a duplicate-free list is duplicate-free and lacks the head. */
  lemma DistinctTail(s: seq<Film>)
    requires NoDuplicates(s) && s != []
    ensures NoDuplicates(s[1..])
    ensures s[0] !in s[1..]
  {
    forall i, j | 0 <= i < j < |s[1..]| ensures s[1..][i] != s[1..][j] {
      assert s[1..][i] == s[i + 1] && s[1..][j] == s[j + 1];
    }
    forall i | 0 <= i < |s[1..]| ensures s[1..][i] != s[0] {
      assert s[1..][i] == s[i + 1];
    }
  }

  /** Insertion into a sorted list yields a sorted list. */
  lemma {:induction false} InsertKeepsSorted(f: Film, s: seq<Film>)
    requires SortedByLikes(s)
    ensures SortedByLikes(InsertByLikes(f, s))
  {
    if s == [] || |s[0].likes| <= |f.likes| {
      if s != [] { SortedTail(s); }
      SortedCons(f, s);
    } else {
      SortedTail(s);
      InsertKeepsSorted(f, s[1..]);
      SortedCons(s[0], InsertByLikes(f, s[1..]));
    }
  }

  /** Insertion of a new film into a duplicate-free list keeps it duplicate-free. */
  lemma {:induction false} InsertKeepsDistinct(f: Film, s: seq<Film>)
    requires NoDuplicates(s) && f !in s
    ensures NoDuplicates(InsertByLikes(f, s))
  {
    if s == [] || |s[0].likes| <= |f.likes| {
      DistinctCons(f, s);
    } else {
      DistinctTail(s);
      InsertKeepsDistinct(f, s[1..]);
      DistinctCons(s[0], InsertByLikes(f, s[1..]));
    }
  }

  /** The sort orders by like count, most liked first. */
  lemma {:induction false} SortByLikesSorts(s: seq<Film>)
    ensures SortedByLikes(SortByLikes(s))
  {
    if s != [] {
      SortByLikesSorts(s[1..]);
      InsertKeepsSorted(s[0], SortByLikes(s[1..]));
    }
  }

  /** The sort of a duplicate-free list is duplicate-free. */
  lemma {:induction false} SortByLikesKeepsDistinct(s: seq<Film>)
    requires NoDuplicates(s)
    ensures NoDuplicates(SortByLikes(s))
  {
    if s != [] {
      DistinctTail(s);
      SortByLikesKeepsDistinct(s[1..]);
      assert s[0] !in SortByLikes(s[1..]) by {
        assert s[0] !in multiset(s[1..]);
      }
      InsertKeepsDistinct(s[0], SortByLikes(s[1..]));
    }
  }

  /** The smaller of two counts. */
  function Min(a: int, b: int): (m: int)
    ensures m <= a && m <= b && (m == a || m == b)
  {
    if a <= b then a else b
  }

  /** `getMostRatedFilms(count)` for a non-negative count: the stored films
      ordered by like count, cut to the first `count`. */
  function MostRated(films: map<int, Film>, count: nat): (r: seq<Film>)
    ensures |r| == Min(count, |films|)
  {
    var sorted := SortByLikes(ValuesByKey(films));
    sorted[..Min(count, |films|)]
  }

  /** Every film of the most-rated list is one of the stored films. */
  lemma MostRatedMembers(films: map<int, Film>, count: nat, i: int)
    requires 0 <= i < |MostRated(films, count)|
    ensures MostRated(films, count)[i] in ValuesByKey(films)
  {
    var sorted := SortByLikes(ValuesByKey(films));
    assert MostRated(films, count)[i] == sorted[i];
    assert sorted[i] in multiset(sorted);
  }

  /** A prefix of a sorted, duplicate-free list is sorted and duplicate-free. */
  lemma PrefixKeepsOrder(s: seq<Film>, k: nat)
    requires k <= |s|
    ensures SortedByLikes(s) ==> SortedByLikes(s[..k])
    ensures NoDuplicates(s) ==> NoDuplicates(s[..k])
  {
    assert forall i :: 0 <= i < k ==> s[..k][i] == s[i];
  }

  /** Under the store invariant a film listed by key is filed under its own id. */
  lemma ListedFilmIsStored(films: map<int, Film>, x: Film)
    requires WellKeyed(films)
    requires x in ValuesByKey(films)
    ensures x.id in films && films[x.id] == x
  {
    var k := ListedIsStored(films, x);
  }

  /** Under the store invariant the films listed by key are all distinct: each
      carries its own key as id. */
  lemma ValuesByKeyDistinct(films: map<int, Film>)
    requires WellKeyed(films)
    ensures NoDuplicates(ValuesByKey(films))
  {
    var r, ks := ValuesByKey(films), Ascending(films.Keys);
    ValuesByKeyContents(films);
    forall i, j | 0 <= i < j < |r| ensures r[i] != r[j] {
      assert r[i].id == ks[i] && r[j].id == ks[j];
    }
  }

  /** The most-rated list is ordered by like count, lists no film twice, and
      holds only stored films, each filed under its id. */
  lemma MostRatedIsRanking(films: map<int, Film>, count: nat)
    requires WellKeyed(films)
    ensures var r := MostRated(films, count);
      && SortedByLikes(r)
      && NoDuplicates(r)
      && forall i :: 0 <= i < |r| ==> r[i].id in films && films[r[i].id] == r[i]
  {
    var all := ValuesByKey(films);
    var r := MostRated(films, count);
    SortByLikesSorts(all);
    ValuesByKeyDistinct(films);
    SortByLikesKeepsDistinct(all);
    PrefixKeepsOrder(SortByLikes(all), |r|);
    forall i | 0 <= i < |r| ensures r[i].id in films && films[r[i].id] == r[i] {
      MostRatedMembers(films, count, i);
      ListedFilmIsStored(films, r[i]);
    }
  }

  /** In a sorted list, a film that lies beyond the first `k` has no more
      likes than any of the first `k`. */
  lemma BeyondPrefixRanksLower(s: seq<Film>, k: nat, x: Film, i: int)
    requires SortedByLikes(s) && k <= |s|
    requires x in s && x !in s[..k]
    requires 0 <= i < k
    ensures |x.likes| <= |s[i].likes|
  {
    var q :| 0 <= q < |s| && s[q] == x;
    assert forall p :: 0 <= p < k ==> s[p] == s[..k][p];
    assert q >= k by {
      assert forall p :: 0 <= p < k ==> s[p] in s[..k];
    }
  }

  /** The list is the top of the ranking: a stored film that is left out has
      no more likes than any film that is listed. */
  lemma MostRatedIsTop(films: map<int, Film>, count: nat)
    ensures var r := MostRated(films, count);
      forall id, i :: id in films && films[id] !in r && 0 <= i < |r| ==> |films[id].likes| <= |r[i].likes|
  {
    var all := ValuesByKey(films);
    var sorted := SortByLikes(all);
    var r := MostRated(films, count);
    SortByLikesSorts(all);
    ValuesByKeyContents(films);
    forall id, i | id in films && films[id] !in r && 0 <= i < |r| ensures |films[id].likes| <= |r[i].likes| {
      assert films[id] in multiset(all);
      assert films[id] in sorted;
      BeyondPrefixRanksLower(sorted, |r|, films[id], i);
    }
  }

  /** A count of at least the number of films lists every stored film. */
  lemma MostRatedWithLargeCountListsAll(films: map<int, Film>, count: nat)
    requires count >= |films|
    ensures multiset(MostRated(films, count)) == multiset(ValuesByKey(films))
  {
    WholeSortIsPermutation(ValuesByKey(films), Min(count, |films|));
  }

  /** Keeping the whole sorted list keeps every film. */
  lemma WholeSortIsPermutation(listed: seq<Film>, n: nat)
    requires n == |listed|
    ensures multiset(SortByLikes(listed)[..n]) == multiset(listed)
  {
    var sorted := SortByLikes(listed);
    assert sorted[..n] == sorted;
  }

  /** Two stored films 1 and 2 without likes and two stored users 1 and 2;
      film 1 is liked by both users and film 2 by user 1; the single most
      rated film is film 1. */
  lemma MostRatedScenario(films: map<int, Film>, users: map<int, User>)
    requires WellKeyed(films) && films.Keys == {1, 2}
    requires films[1].likes == {} && films[2].likes == {}
    requires 1 in users && 2 in users
    ensures var after := AddLikeEffect(AddLikeEffect(AddLikeEffect(films, users, 1, 1).1, users, 1, 2).1, users, 2, 1).1;
      MostRated(after, 1) == [after[1]]
  {
    var m1 := AddLikeEffect(films, users, 1, 1).1;
    var m2 := AddLikeEffect(m1, users, 1, 2).1;
    var after := AddLikeEffect(m2, users, 2, 1).1;
    assert after[1].likes == {1} + {2} && after[2].likes == {1};
    assert after.Keys == {1, 2};
    MoreLikedOfTwoIsTop(after);
  }

  /** Of two stored films, the one with more likes is the single most rated. */
  lemma MoreLikedOfTwoIsTop(films: map<int, Film>)
    requires WellKeyed(films) && films.Keys == {1, 2}
    requires |films[1].likes| > |films[2].likes|
    ensures MostRated(films, 1) == [films[1]]
  {
    assert |films| == 2 by {
      assert |films.Keys| == 2;
    }
    var r := MostRated(films, 1);
    MostRatedIsRanking(films, 1);
    MostRatedIsTop(films, 1);
    assert |r| == 1;
    assert r[0].id in films.Keys;
    assert films[1] in r;
  }

  // ---------------------------------------------------------------------------
  // The service object

  class FilmService {
    const filmStorage: InMemoryFilmStorage
    const userStorage: UserStore.InMemoryUserStorage

    constructor (filmStorage: InMemoryFilmStorage, userStorage: UserStore.InMemoryUserStorage)
      ensures this.filmStorage == filmStorage && this.userStorage == userStorage
    {
      this.filmStorage := filmStorage;
      this.userStorage := userStorage;
    }

    ghost predicate Valid()
      reads filmStorage, userStorage
    {
      filmStorage.Valid() && userStorage.Valid()
    }

    /** `createFilm`: a pass-through to the store. */
    method CreateFilm(film: Film) returns (r: Film)
      requires Valid()
      modifies filmStorage
      ensures Valid()
      ensures filmStorage.films == Created(old(filmStorage.films), film)
      ensures r.id == NextId(old(filmStorage.films).Keys) && r == film.(id := r.id)
    {
      r := filmStorage.CreateFilm(film);
    }

    /** `updateFilm`: a pass-through to the store. */
    method UpdateFilm(updFilm: Film) returns (r: Result<Film>)
      requires Valid()
      modifies filmStorage
      ensures Valid()
      ensures updFilm.id !in old(filmStorage.films) ==>
        r == Err(NotFound(FilmEntity, updFilm.id)) && filmStorage.films == old(filmStorage.films)
      ensures updFilm.id in old(filmStorage.films) ==>
        r == Ok(updFilm) && filmStorage.films == old(filmStorage.films)[updFilm.id := updFilm]
    {
      r := filmStorage.UpdateFilm(updFilm);
    }

    /** `addLike`: check the user, fetch the film, add the user's id to its likes. */
    method AddLike(filmId: int, userId: int) returns (r: Result<()>)
      requires Valid()
      modifies filmStorage
      ensures Valid()
      ensures (r, filmStorage.films) == AddLikeEffect(old(filmStorage.films), userStorage.users, filmId, userId)
    {
      var _ :- userStorage.GetUserById(userId);
      var film :- filmStorage.GetFilmById(filmId);
      filmStorage.films := filmStorage.films[filmId := film.(likes := film.likes + {userId})];
      r := Ok(());
    }

    /** `removeLike`: check the user, fetch the film, remove the user's id from its likes. */
    method RemoveLike(filmId: int, userId: int) returns (r: Result<()>)
      requires Valid()
      modifies filmStorage
      ensures Valid()
      ensures (r, filmStorage.films) == RemoveLikeEffect(old(filmStorage.films), userStorage.users, filmId, userId)
    {
      var _ :- userStorage.GetUserById(userId);
      var film :- filmStorage.GetFilmById(filmId);
      filmStorage.films := filmStorage.films[filmId := film.(likes := film.likes - {userId})];
      r := Ok(());
    }

    /** `getMostRatedFilms`: a negative count is refused the way `Stream.limit`
        refuses it; otherwise the `count` most liked stored films, most liked first. */
    method GetMostRatedFilms(count: int) returns (r: Result<seq<Film>>)
      requires Valid()
      ensures count < 0 ==> r == Err(IllegalArgument(count))
      ensures count >= 0 ==> r == Ok(MostRated(filmStorage.films, count))
      ensures r.Ok? ==>
        && |r.value| == Min(count, |filmStorage.films|)
        && SortedByLikes(r.value)
        && NoDuplicates(r.value)
        && forall i :: 0 <= i < |r.value| ==>
             r.value[i].id in filmStorage.films && filmStorage.films[r.value[i].id] == r.value[i]
    {
      var all := filmStorage.GetAllFilms();
      var sorted := SortByLikes(all);
      if count < 0 {
        return Err(IllegalArgument(count));
      }
      r := Ok(sorted[..Min(count, |sorted|)]);
      MostRatedIsRanking(filmStorage.films, count);
    }

    /** `getFilmById`: a pass-through to the store. */
    method GetFilmById(id: int) returns (r: Result<Film>)
      ensures id in filmStorage.films ==> r == Ok(filmStorage.films[id])
      ensures id !in filmStorage.films ==> r == Err(NotFound(FilmEntity, id))
    {
      r := filmStorage.GetFilmById(id);
    }

    /** `getAllFilms`: a pass-through to the store. */
    method GetAllFilms() returns (r: seq<Film>)
      ensures r == ValuesByKey(filmStorage.films)
      ensures ListsByKey(filmStorage.films, r)
    {
      r := filmStorage.GetAllFilms();
    }
  }
}
