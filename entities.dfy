/** The record shapes of the catalogue (films and users), the not-found
    error, and the result type the operations return instead of throwing. */
module Entities {
  import opened ReleaseDates

  datatype Option<+T> = None | Some(value: T)

  /** Which collection an identifier was looked up in. */
  datatype Entity = FilmEntity | UserEntity

  /** `NotFoundException`, carrying the collection and the missing id;
      `IllegalArgument` is the exception `Stream.limit` throws for a negative size. */
  datatype Error =
    | NotFound(entity: Entity, id: int)
    | IllegalArgument(value: int)

  /** A value or the exception the source would raise. */
  datatype Result<+T> = Ok(value: T) | Err(error: Error) {
    predicate IsFailure() {
      Err?
    }

    function PropagateFailure<U>(): Result<U>
      requires Err?
    {
      Err(error)
    }

    function Extract(): T
      requires Ok?
    {
      value
    }
  }

  /** A user; `name` may be null, `friends` holds the ids of the user's friends. */
  datatype User = User(
    id: int,
    name: Option<string>,
    email: string,
    login: string,
    birthday: Date,
    friends: set<int>)

  /** A film; `likes` holds the ids of the users who liked it. */
  datatype Film = Film(
    id: int,
    name: string,
    description: string,
    releaseDate: Date,
    duration: int,
    likes: set<int>)

  /** `new User()` followed by the setters: id 0 (the `int` default) and an
      empty friend set. */
  function NewUser(name: Option<string>, email: string, login: string, birthday: Date): (u: User)
    ensures u.id == 0 && u.friends == {}
    ensures u.name == name && u.email == email && u.login == login && u.birthday == birthday
  {
    User(0, name, email, login, birthday, {})
  }

  /** `new Film()` followed by the setters: id 0 and an empty like set. */
  function NewFilm(name: string, description: string, releaseDate: Date, duration: int): (f: Film)
    ensures f.id == 0 && f.likes == {}
    ensures f.name == name && f.description == description
    ensures f.releaseDate == releaseDate && f.duration == duration
  {
    Film(0, name, description, releaseDate, duration, {})
  }

  /** `getXById` on a map keyed by id: the stored entry, or NotFound for that id. */
  function Lookup<V>(m: map<int, V>, entity: Entity, id: int): (r: Result<V>)
    ensures r.Ok? <==> id in m
    ensures r.Ok? ==> r.value == m[id]
    ensures r.Err? ==> r.error == NotFound(entity, id)
  {
    if id in m then Ok(m[id]) else Err(NotFound(entity, id))
  }
}
