/** The in-memory film store: a map from film id to film. */
module FilmStore {
  import opened Entities
  import opened Identifiers
  import opened ReleaseDates

  /** The store's invariant: every film is filed under its own id, and ids are positive. */
  ghost predicate WellKeyed(films: map<int, Film>) {
    forall k :: k in films ==> k >= 1 && films[k].id == k
  }

  /** The map after `createFilm(f)`: `f` stamped with the next id and stored under it. */
  function Created(films: map<int, Film>, f: Film): (r: map<int, Film>)
    ensures NextId(films.Keys) !in films
    ensures r.Keys == films.Keys + {NextId(films.Keys)}
    ensures |r| == |films| + 1
    ensures r[NextId(films.Keys)] == f.(id := NextId(films.Keys))
    ensures forall k :: k in films ==> r[k] == films[k]
    ensures WellKeyed(films) ==> WellKeyed(r)
  {
    var newId := NextId(films.Keys);
    films[newId := f.(id := newId)]
  }

  /** After a creation the next id is one more than the id just handed out,
      so successive creations hand out strictly increasing, distinct ids. */
  lemma NextIdAfterCreate(films: map<int, Film>, f: Film)
    ensures NextId(Created(films, f).Keys) == NextId(films.Keys) + 1
  {
    var id := NextId(films.Keys);
    var next := NextId(Created(films, f).Keys);
    assert id in Created(films, f).Keys;
    assert next - 1 in Created(films, f).Keys;
  }

  /** A film built by `new Film()` and the setters is stored with no likes. */
  lemma NewFilmStoredWithoutLikes(films: map<int, Film>, name: string, description: string, releaseDate: Date, duration: int)
    ensures var r := Created(films, NewFilm(name, description, releaseDate, duration));
      r[NextId(films.Keys)].likes == {}
  {
  }

  class InMemoryFilmStorage {
    /** `filmsStorage`. */
    var films: map<int, Film>

    ghost predicate Valid()
      reads this
    {
      WellKeyed(films)
    }

    constructor ()
      ensures Valid() && films == map[]
    {
      films := map[];
    }

    /** `getNextId`. */
    method GetNextId() returns (id: int)
      ensures id == NextId(films.Keys)
      ensures id !in films && forall k :: k in films ==> k < id
      ensures films == map[] ==> id == 1
    {
      id := NextId(films.Keys);
    }

    /** `createFilm`: stamps the argument with a fresh id, stores it under that id
        and returns the stored film. */
    method CreateFilm(film: Film) returns (r: Film)
      requires Valid()
      modifies this
      ensures Valid()
      ensures films == Created(old(films), film)
      ensures r.id == NextId(old(films).Keys) && r == film.(id := r.id)
      ensures r.id in films && films[r.id] == r
    {
      var newId := GetNextId();
      var stamped := film.(id := newId);
      films := films[newId := stamped];
      r := stamped;
    }

    /** `updateFilm`: NotFound for an unknown id, otherwise the whole entry
        (like set included) is replaced by the argument, which is returned. */
    method UpdateFilm(updFilm: Film) returns (r: Result<Film>)
      requires Valid()
      modifies this
      ensures Valid()
      ensures updFilm.id !in old(films) ==> r == Err(NotFound(FilmEntity, updFilm.id)) && films == old(films)
      ensures updFilm.id in old(films) ==> r == Ok(updFilm) && films == old(films)[updFilm.id := updFilm]
      ensures films.Keys == old(films).Keys
    {
      var receivedId := updFilm.id;
      var oldFilm :- GetFilmById(receivedId);
      films := films[receivedId := updFilm];
      r := Ok(updFilm);
    }

    /** `getAllFilms`: every stored film, one per key. */
    method GetAllFilms() returns (r: seq<Film>)
      ensures r == ValuesByKey(films)
      ensures |r| == |films|
      ensures ListsByKey(films, r)
    {
      r := ValuesByKey(films);
      ValuesByKeyContents(films);
    }

    /** `getFilmById`: the stored film, or NotFound. */
    method GetFilmById(id: int) returns (r: Result<Film>)
      ensures r == Lookup(films, FilmEntity, id)
      ensures id in films ==> r == Ok(films[id])
      ensures id !in films ==> r == Err(NotFound(FilmEntity, id))
    {
      if id !in films {
        return Err(NotFound(FilmEntity, id));
      }
      r := Ok(films[id]);
    }
  }

  /** An update on an empty store fails (id 1 included) and changes nothing. */
  method UpdateOnEmptyStoreFails(f: Film) returns (r: Result<Film>)
    ensures r == Err(NotFound(FilmEntity, f.id))
  {
    var store := new InMemoryFilmStorage();
    r := store.UpdateFilm(f);
    assert store.films == map[];
  }
}
