/** Entities of the contest: candidates, votes, leaderboard entries, and the
    HTTP error statuses the routes answer with. Timestamps are integers
    counting microseconds, the resolution of Python's datetime. */
module Models {

  /** One microsecond-based timestamp or duration. */
  type Time = int

  const HourLength: Time := 3_600_000_000
  const DayLength: Time := 24 * HourLength

  /** A candidate of the registry (table `persons`). */
  datatype Person = Person(id: int, name: string, filename: string, createdAt: Time)

  /** One recorded vote (table `votes`): `winnerId` was preferred over `loserId`
      by the client whose address is `voterIp`. */
  datatype Vote = Vote(id: int, winnerId: int, loserId: int, voterIp: string, createdAt: Time)

  /** One row of the leaderboard. */
  datatype RankedPerson = RankedPerson(rank: int, person: Person, elo: real, wins: int, losses: int, games: int)

  /** Two candidates shown side by side. */
  datatype Pair = Pair(left: Person, right: Person)

  /** The rejections the routes raise as HTTP exceptions. */
  datatype Status = NotFound | BadRequest | TooManyRequests {
    function Code(): (c: int)
      ensures c == 404 <==> this == NotFound
      ensures c == 400 <==> this == BadRequest
      ensures c == 429 <==> this == TooManyRequests
    {
      match this
      case NotFound => 404
      case BadRequest => 400
      case TooManyRequests => 429
    }
  }

  datatype Result<T> = Ok(value: T) | Err(error: Status)

  datatype Option<T> = None | Some(value: T)

  /** The ids of a list of persons. */
  function PersonIds(persons: seq<Person>): set<int>
  {
    set p | p in persons :: p.id
  }

  /** No two persons share an id (the primary key of `persons`). */
  predicate DistinctIds(persons: seq<Person>)
  {
    forall i, j | 0 <= i < j < |persons| :: persons[i].id != persons[j].id
  }
}
