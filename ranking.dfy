/** The ranking route: the start of a time window, the Elo replay of the votes
    in it, and the leaderboard built from the replayed scores and the win/loss
    tallies. */
module Ranking {
  import opened Models
  import Sorting

  const InitialElo: real := 1000.0
  const KFactor: real := 32.0

  /** The periods a leaderboard can be asked for. */
  datatype Period = Day | Week | Month | Year

  /** Start of the window `[since, now]` for a period. */
  function PeriodStart(period: Period, now: Time): (since: Time)
    ensures period == Day ==> since == now - DayLength
    ensures period == Week ==> since == now - 7 * DayLength
    ensures period == Month ==> since == now - 30 * DayLength
    ensures period == Year ==> since == now - 365 * DayLength
  {
    match period
    case Day => now - DayLength
    case Week => now - 7 * DayLength
    case Month => now - 30 * DayLength
    case Year => now - 365 * DayLength
  }

  /** The longer the period, the earlier its window starts. */
  lemma PeriodsNested(now: Time)
    ensures PeriodStart(Year, now) < PeriodStart(Month, now) < PeriodStart(Week, now)
         < PeriodStart(Day, now) < now
  {
  }

  /** The votes of the ledger cast at or after `since`, in ledger order. */
  function Window(ledger: seq<Vote>, since: Time): (votes: seq<Vote>)
    ensures forall v :: v in votes <==> v in ledger && v.createdAt >= since
    ensures votes == [] <==> forall v | v in ledger :: v.createdAt < since
    ensures |votes| <= |ledger|
  {
    if ledger == [] then []
    else (if ledger[0].createdAt >= since then [ledger[0]] else []) + Window(ledger[1..], since)
  }

  /** Selection keeps ledger order and multiplicity: the window of a
      concatenation is the concatenation of the windows. */
  lemma {:induction false} WindowAppend(a: seq<Vote>, b: seq<Vote>, since: Time)
    ensures Window(a + b, since) == Window(a, since) + Window(b, since)
  {
    if a == [] {
      assert a + b == b;
    } else {
      var head := if a[0].createdAt >= since then [a[0]] else [];
      var rest, wb := Window(a[1..], since), Window(b, since);
      assert (a + b)[0] == a[0];
      assert (a + b)[1..] == a[1..] + b;
      WindowAppend(a[1..], b, since);
      assert Window(a + b, since) == head + (rest + wb);
      assert Window(a, since) == head + rest;
      ConcatAssoc(head, rest, wb);
    }
  }

  lemma ConcatAssoc<T>(x: seq<T>, y: seq<T>, z: seq<T>)
    ensures x + (y + z) == (x + y) + z
  {
  }

  /** The window of a single vote is that vote when it is recent enough. */
  lemma WindowOne(v: Vote, since: Time)
    ensures Window([v], since) == if v.createdAt >= since then [v] else []
  {
    assert [v][1..] == [];
  }

  /** A window that starts later is the earlier window, filtered again: the
      day window lies inside the week window, which lies inside the month
      window, which lies inside the year window. */
  lemma {:induction false} WindowsNested(ledger: seq<Vote>, early: Time, late: Time)
    requires early <= late
    ensures Window(ledger, late) == Window(Window(ledger, early), late)
  {
    if ledger != [] {
      WindowsNested(ledger[1..], early, late);
      var head := if ledger[0].createdAt >= early then [ledger[0]] else [];
      var w := Window(ledger[1..], early);
      assert Window(ledger, early) == head + w;
      if head == [] {
        assert head + w == w;
      } else {
        assert (head + w)[0] == ledger[0];
        assert (head + w)[1..] == w;
      }
    }
  }

  /** Ids on either side of some vote of `votes`. */
  function InvolvedIds(votes: seq<Vote>): set<int>
  {
    (set v | v in votes :: v.winnerId) + (set v | v in votes :: v.loserId)
  }

  /** The persons of the registry whose id is in `ids`, in registry order. */
  function Involved(registry: seq<Person>, ids: set<int>): (persons: seq<Person>)
    ensures forall p :: p in persons <==> p in registry && p.id in ids
    ensures |persons| <= |registry|
  {
    if registry == [] then []
    else (if registry[0].id in ids then [registry[0]] else []) + Involved(registry[1..], ids)
  }

  /** The query keeps registry order and multiplicity: the persons kept from a
      concatenation are the persons kept from each part, one after the other. */
  lemma {:induction false} InvolvedAppend(a: seq<Person>, b: seq<Person>, ids: set<int>)
    ensures Involved(a + b, ids) == Involved(a, ids) + Involved(b, ids)
  {
    if a == [] {
      assert a + b == b;
    } else {
      assert (a + b)[0] == a[0];
      assert (a + b)[1..] == a[1..] + b;
      InvolvedAppend(a[1..], b, ids);
    }
  }

  /** A single person is kept exactly when its id is involved. */
  lemma InvolvedOne(p: Person, ids: set<int>)
    ensures Involved([p], ids) == if p.id in ids then [p] else []
  {
    assert [p][1..] == [];
  }

  // ---------------------------------------------------------------------------
  // Elo replay

  /** Expected score of a player rated `a` against one rated `b`; `compute_elo`
      computes 1 / (1 + 10 ** ((b - a) / 400)) on floats. */
  type Expectation = (real, real) -> real

  /** What the replay needs of the expected-score function: it lies strictly
      between 0 and 1 and is one half between equal ratings. */
  ghost predicate ValidExpectation(expected: Expectation)
  {
    (forall a, b :: Proper(expected, a, b)) && (forall a :: Even(expected, a))
  }

  /** Between equal ratings the expected score is one half. */
  ghost predicate Even(expected: Expectation, a: real)
  {
    expected(a, a) == 0.5
  }

  /** The expected score of `a` against `b` is a probability other than 0 and 1. */
  ghost predicate Proper(expected: Expectation, a: real, b: real)
  {
    0.0 < expected(a, b) < 1.0
  }

  /** Every person starts at the initial rating. */
  function InitialScores(persons: seq<Person>): (scores: map<int, real>)
    ensures scores.Keys == PersonIds(persons)
    ensures forall id | id in scores :: scores[id] == InitialElo
  {
    map id | id in PersonIds(persons) :: InitialElo
  }

  /** One Elo update; a vote with a side that has no score changes nothing. */
  function ApplyVote(scores: map<int, real>, vote: Vote, expected: Expectation): (r: map<int, real>)
    ensures r.Keys == scores.Keys
  {
    if vote.winnerId !in scores || vote.loserId !in scores then scores
    else
      var eloW, eloL := scores[vote.winnerId], scores[vote.loserId];
      var expectedW := expected(eloW, eloL);
      var expectedL := 1.0 - expectedW;
      scores[vote.winnerId := eloW + KFactor * (1.0 - expectedW)]
            [vote.loserId := eloL + KFactor * (0.0 - expectedL)]
  }

  /** The scores after applying `votes` one after the other, first to last. */
  function Replay(scores: map<int, real>, votes: seq<Vote>, expected: Expectation): (r: map<int, real>)
    ensures r.Keys == scores.Keys
  {
    if votes == [] then scores
    else ApplyVote(Replay(scores, votes[..|votes| - 1], expected), votes[|votes| - 1], expected)
  }

  /** Sort key for `sorted(votes, key=lambda v: v.created_at)`. */
  function CreatedAtKey(vote: Vote): real
  {
    vote.createdAt as real
  }

  /** The votes in replay order: ascending creation time, ties in input order. */
  function Chronological(votes: seq<Vote>): seq<Vote>
  {
    Sorting.SortBy(votes, CreatedAtKey)
  }

  /** The scores `compute_elo` returns. */
  ghost function EloScores(persons: seq<Person>, votes: seq<Vote>, expected: Expectation): map<int, real>
  {
    Replay(InitialScores(persons), Chronological(votes), expected)
  }

  /** Replays the votes in chronological order over fresh scores. */
  method ComputeElo(persons: seq<Person>, votes: seq<Vote>, expected: Expectation) returns (scores: map<int, real>)
    ensures scores == EloScores(persons, votes, expected)
    ensures scores.Keys == PersonIds(persons)
  {
    scores := map id | id in PersonIds(persons) :: InitialElo;
    var sortedVotes := Chronological(votes);
    scores := ReplayVotes(scores, sortedVotes, expected);
  }

  /** The loop of `compute_elo`: applies the votes to `initial` one at a time,
      skipping a vote with a side that has no score. */
  method ReplayVotes(initial: map<int, real>, sortedVotes: seq<Vote>, expected: Expectation)
    returns (scores: map<int, real>)
    ensures scores == Replay(initial, sortedVotes, expected)
  {
    scores := initial;
    for i := 0 to |sortedVotes|
      invariant scores == Replay(initial, sortedVotes[..i], expected)
    {
      ghost var before := scores;
      ReplayStep(initial, sortedVotes, i, expected);
      var wId, lId := sortedVotes[i].winnerId, sortedVotes[i].loserId;
      if wId !in scores || lId !in scores {
        continue;
      }
      var eloW, eloL := scores[wId], scores[lId];
      var expectedW := expected(eloW, eloL);
      var expectedL := 1.0 - expectedW;
      scores := scores[wId := eloW + KFactor * (1.0 - expectedW)];
      scores := scores[lId := eloL + KFactor * (0.0 - expectedL)];
      assert scores == ApplyVote(before, sortedVotes[i], expected);
    }
    assert sortedVotes[..|sortedVotes|] == sortedVotes;
  }

  /** Replaying one more vote applies it to the scores replayed so far. */
  lemma ReplayStep(scores: map<int, real>, votes: seq<Vote>, i: nat, expected: Expectation)
    requires i < |votes|
    ensures Replay(scores, votes[..i + 1], expected)
         == ApplyVote(Replay(scores, votes[..i], expected), votes[i], expected)
  {
    assert votes[..i + 1][..i] == votes[..i];
    assert votes[..i + 1][i] == votes[i];
  }

  /** The replay order: a permutation of the votes, ascending by creation time,
      and votes created at the same instant keep their input order. */
  lemma ChronologicalOrder(votes: seq<Vote>, t: Time)
    ensures multiset(Chronological(votes)) == multiset(votes)
    ensures forall i, j | 0 <= i < j < |Chronological(votes)| ::
      Chronological(votes)[i].createdAt <= Chronological(votes)[j].createdAt
    ensures Sorting.WithKey(Chronological(votes), CreatedAtKey, t as real)
         == Sorting.WithKey(votes, CreatedAtKey, t as real)
  {
    var r := Chronological(votes);
    forall i, j | 0 <= i < j < |r| ensures r[i].createdAt <= r[j].createdAt {
      assert CreatedAtKey(r[i]) <= CreatedAtKey(r[j]);
    }
    Sorting.SortByStable(votes, CreatedAtKey, t as real);
  }

  /** No two votes of the list were created at the same instant. */
  predicate DistinctTimes(votes: seq<Vote>)
  {
    forall i, j | 0 <= i < j < |votes| :: votes[i].createdAt != votes[j].createdAt
  }

  /** With distinct timestamps, the storage order of the votes does not matter. */
  lemma EloPermutationInvariant(persons: seq<Person>, votes: seq<Vote>, shuffled: seq<Vote>, expected: Expectation)
    requires multiset(shuffled) == multiset(votes)
    requires DistinctTimes(votes)
    ensures EloScores(persons, shuffled, expected) == EloScores(persons, votes, expected)
  {
    forall x, y | x in votes && y in votes && CreatedAtKey(x) == CreatedAtKey(y) ensures x == y {
      var i :| 0 <= i < |votes| && votes[i] == x;
      var j :| 0 <= j < |votes| && votes[j] == y;
      assert !(i < j) && !(j < i);
    }
    Sorting.SortByPermutationInvariant(votes, shuffled, CreatedAtKey);
  }

  /** Only the votes whose two sides both have a score. */
  function Scorable(votes: seq<Vote>, ids: set<int>): (r: seq<Vote>)
    ensures forall v :: v in r <==> v in votes && v.winnerId in ids && v.loserId in ids
  {
    if votes == [] then []
    else
      var last := votes[|votes| - 1];
      Scorable(votes[..|votes| - 1], ids) + (if last.winnerId in ids && last.loserId in ids then [last] else [])
  }

  /** A vote naming someone without a score leaves every score as it was. */
  lemma DanglingVoteSkipped(scores: map<int, real>, vote: Vote, expected: Expectation)
    requires vote.winnerId !in scores || vote.loserId !in scores
    ensures ApplyVote(scores, vote, expected) == scores
  {
  }

  /** Dropping the votes with a side that has no score does not change the replay. */
  lemma {:induction false} ReplayIgnoresDanglingVotes(scores: map<int, real>, votes: seq<Vote>, expected: Expectation)
    ensures Replay(scores, votes, expected) == Replay(scores, Scorable(votes, scores.Keys), expected)
  {
    if votes != [] {
      var init, last := votes[..|votes| - 1], votes[|votes| - 1];
      ReplayIgnoresDanglingVotes(scores, init, expected);
      var kept := Scorable(init, scores.Keys);
      if last.winnerId in scores && last.loserId in scores {
        var r := kept + [last];
        assert r[..|r| - 1] == kept;
      } else {
        assert Scorable(votes, scores.Keys) == kept;
      }
    }
  }

  /** An applied vote moves the winner up and the loser down by the same
      amount and touches nobody else. */
  lemma ApplyVoteZeroSum(scores: map<int, real>, vote: Vote, expected: Expectation)
    requires vote.winnerId in scores && vote.loserId in scores && vote.winnerId != vote.loserId
    ensures var r := ApplyVote(scores, vote, expected);
      var gain := KFactor * (1.0 - expected(scores[vote.winnerId], scores[vote.loserId]));
      && r[vote.winnerId] == scores[vote.winnerId] + gain
      && r[vote.loserId] == scores[vote.loserId] - gain
      && forall id | id in scores && id != vote.winnerId && id != vote.loserId :: r[id] == scores[id]
  {
  }

  /** The winner gains and the loser loses strictly between 0 and K points. */
  lemma ApplyVoteMonotone(scores: map<int, real>, vote: Vote, expected: Expectation)
    requires ValidExpectation(expected)
    requires vote.winnerId in scores && vote.loserId in scores && vote.winnerId != vote.loserId
    ensures var r := ApplyVote(scores, vote, expected);
      && scores[vote.winnerId] < r[vote.winnerId] < scores[vote.winnerId] + KFactor
      && scores[vote.loserId] - KFactor < r[vote.loserId] < scores[vote.loserId]
  {
    assert Proper(expected, scores[vote.winnerId], scores[vote.loserId]);
  }

  /** Two votes between disjoint pairs give the same scores in either order. */
  lemma DisjointVotesCommute(scores: map<int, real>, first: Vote, second: Vote, expected: Expectation)
    requires first.winnerId != second.winnerId && first.winnerId != second.loserId
    requires first.loserId != second.winnerId && first.loserId != second.loserId
    ensures ApplyVote(ApplyVote(scores, first, expected), second, expected)
         == ApplyVote(ApplyVote(scores, second, expected), first, expected)
  {
  }

  /** From fresh scores, one win at equal ratings gives 1016 and 984. */
  lemma FirstMatch(a: Person, b: Person, vote: Vote, expected: Expectation)
    requires ValidExpectation(expected)
    requires a.id != b.id && vote.winnerId == a.id && vote.loserId == b.id
    ensures EloScores([a, b], [vote], expected) == map[a.id := 1016.0, b.id := 984.0]
  {
    assert Sorting.SortBy([vote], CreatedAtKey) == Sorting.Insert(vote, [], CreatedAtKey) == [vote];
    var init := InitialScores([a, b]);
    assert PersonIds([a, b]) == {a.id, b.id};
    assert init == map[a.id := InitialElo, b.id := InitialElo];
    assert [vote][..0] == [];
    assert Replay(init, [vote], expected) == ApplyVote(init, vote, expected);
    assert Even(expected, InitialElo);
  }

  // ---------------------------------------------------------------------------
  // Sum of the scores

  /** The ids of `persons`, in order. */
  function IdList(persons: seq<Person>): (ids: seq<int>)
    ensures |ids| == |persons|
    ensures forall i | 0 <= i < |persons| :: ids[i] == persons[i].id
  {
    seq(|persons|, i requires 0 <= i < |persons| => persons[i].id)
  }

  /** `ids` lists every key of `scores` exactly once. */
  ghost predicate ListsKeys(ids: seq<int>, scores: map<int, real>)
  {
    && (forall i | 0 <= i < |ids| :: ids[i] in scores)
    && (forall id | id in scores :: id in ids)
    && (forall i, j | 0 <= i < j < |ids| :: ids[i] != ids[j])
  }

  /** The sum of the scores of `ids`. */
  function Total(scores: map<int, real>, ids: seq<int>): real
    requires forall i | 0 <= i < |ids| :: ids[i] in scores
  {
    if ids == [] then 0.0 else scores[ids[0]] + Total(scores, ids[1..])
  }

  lemma {:induction false} TotalUpdate(scores: map<int, real>, ids: seq<int>, k: int, x: real)
    requires forall i | 0 <= i < |ids| :: ids[i] in scores
    requires k in scores
    requires forall i, j | 0 <= i < j < |ids| :: ids[i] != ids[j]
    ensures Total(scores[k := x], ids) == Total(scores, ids) + (if k in ids then x - scores[k] else 0.0)
  {
    if ids != [] {
      TotalUpdate(scores, ids[1..], k, x);
      if ids[0] == k {
        forall j | 0 <= j < |ids[1..]| ensures ids[1..][j] != k {
          assert ids[1..][j] == ids[j + 1];
        }
        assert k !in ids[1..];
      } else {
        assert k in ids <==> k in ids[1..];
      }
    }
  }

  lemma {:induction false} TotalConstant(scores: map<int, real>, ids: seq<int>)
    requires forall i | 0 <= i < |ids| :: ids[i] in scores && scores[ids[i]] == InitialElo
    ensures Total(scores, ids) == InitialElo * |ids| as real
  {
    if ids != [] {
      TotalConstant(scores, ids[1..]);
      assert InitialElo * |ids| as real == InitialElo + InitialElo * |ids[1..]| as real;
    }
  }

  /** A vote between two different candidates keeps the sum of their scores. */
  lemma TotalAfterVote(scores: map<int, real>, ids: seq<int>, vote: Vote, expected: Expectation)
    requires ListsKeys(ids, scores)
    requires vote.winnerId != vote.loserId
    ensures Total(ApplyVote(scores, vote, expected), ids) == Total(scores, ids)
  {
    if vote.winnerId in scores && vote.loserId in scores {
      var eloW, eloL := scores[vote.winnerId], scores[vote.loserId];
      var expectedW := expected(eloW, eloL);
      var mid := scores[vote.winnerId := eloW + KFactor * (1.0 - expectedW)];
      TotalUpdate(scores, ids, vote.winnerId, eloW + KFactor * (1.0 - expectedW));
      TotalUpdate(mid, ids, vote.loserId, eloL + KFactor * (0.0 - (1.0 - expectedW)));
    }
  }

  lemma {:induction false} ReplayTotal(scores: map<int, real>, ids: seq<int>, votes: seq<Vote>, expected: Expectation)
    requires ListsKeys(ids, scores)
    requires forall v | v in votes :: v.winnerId != v.loserId
    ensures Total(Replay(scores, votes, expected), ids) == Total(scores, ids)
  {
    if votes != [] {
      var init := votes[..|votes| - 1];
      ReplayTotal(scores, ids, init, expected);
      TotalAfterVote(Replay(scores, init, expected), ids, votes[|votes| - 1], expected);
    }
  }

  /** In exact arithmetic the replay keeps the total at 1000 per person, as
      long as no vote names one candidate on both sides. */
  lemma EloTotal(persons: seq<Person>, votes: seq<Vote>, expected: Expectation)
    requires DistinctIds(persons)
    requires forall v | v in votes :: v.winnerId != v.loserId
    ensures Total(EloScores(persons, votes, expected), IdList(persons)) == InitialElo * |persons| as real
  {
    var ids, init := IdList(persons), InitialScores(persons);
    forall id | id in init ensures id in ids {
      var p :| p in persons && p.id == id;
      var i :| 0 <= i < |persons| && persons[i] == p;
      assert ids[i] == id;
    }
    forall i | 0 <= i < |ids| ensures ids[i] in init {
      assert persons[i] in persons;
    }
    var sorted := Chronological(votes);
    forall v | v in sorted ensures v.winnerId != v.loserId {
      assert v in multiset(sorted);
    }
    ReplayTotal(init, ids, sorted, expected);
    TotalConstant(init, ids);
  }

  // ---------------------------------------------------------------------------
  // Leaderboard

  /** Votes of `votes` won by `id`. */
  function Wins(votes: seq<Vote>, id: int): nat
  {
    if votes == [] then 0
    else Wins(votes[..|votes| - 1], id) + (if votes[|votes| - 1].winnerId == id then 1 else 0)
  }

  /** Votes of `votes` lost by `id`. */
  function Losses(votes: seq<Vote>, id: int): nat
  {
    if votes == [] then 0
    else Losses(votes[..|votes| - 1], id) + (if votes[|votes| - 1].loserId == id then 1 else 0)
  }

  /** Sort key for `sorted(persons, key=lambda p: scores[p.id], reverse=True)`:
      Python's reverse sort is stable, which is an ascending stable sort on
      the negated score. */
  function ByScore(scores: map<int, real>): Person -> real
  {
    (p: Person) => if p.id in scores then -scores[p.id] else 0.0
  }

  /** The leaderboard row at 0-based position `k`. */
  function Entry(k: nat, p: Person, scores: map<int, real>, votes: seq<Vote>): RankedPerson
    requires p.id in scores
  {
    RankedPerson(k + 1, p, scores[p.id], Wins(votes, p.id), Losses(votes, p.id),
                 Wins(votes, p.id) + Losses(votes, p.id))
  }

  /** The persons that are scored in the window. */
  function Scored(registry: seq<Person>, votes: seq<Vote>): seq<Person>
  {
    Involved(registry, InvolvedIds(votes))
  }

  /** Scored persons, best score first. */
  ghost function Standing(registry: seq<Person>, votes: seq<Vote>, expected: Expectation): (order: seq<Person>)
    ensures multiset(order) == multiset(Scored(registry, votes))
    ensures forall p | p in order :: p.id in EloScores(Scored(registry, votes), votes, expected)
    ensures |order| == |Scored(registry, votes)|
  {
    var persons := Scored(registry, votes);
    var scores := EloScores(persons, votes, expected);
    var order := Sorting.SortBy(persons, ByScore(scores));
    assert |order| == |multiset(order)| == |multiset(persons)| == |persons|;
    Sorting.SameElements(order, persons);
    order
  }

  /** Persons with equal scores keep their registry order in the standing. */
  lemma StandingTies(registry: seq<Person>, votes: seq<Vote>, expected: Expectation, k: real)
    ensures var scores := EloScores(Scored(registry, votes), votes, expected);
      Sorting.WithKey(Standing(registry, votes, expected), ByScore(scores), k)
        == Sorting.WithKey(Scored(registry, votes), ByScore(scores), k)
  {
    var scores := EloScores(Scored(registry, votes), votes, expected);
    Sorting.SortByStable(Scored(registry, votes), ByScore(scores), k);
  }

  /** The leaderboard of the windowed votes `votes`. */
  ghost function Leaderboard(registry: seq<Person>, votes: seq<Vote>, expected: Expectation): (board: seq<RankedPerson>)
    ensures votes == [] ==> board == []
    ensures votes != [] ==> |board| == |Scored(registry, votes)|
  {
    if votes == [] then []
    else
      var scores := EloScores(Scored(registry, votes), votes, expected);
      var order := Standing(registry, votes, expected);
      seq(|order|, k requires 0 <= k < |order| => Entry(k, order[k], scores, votes))
  }

  /** The persons of the leaderboard rows, in row order. */
  function Persons(board: seq<RankedPerson>): (persons: seq<Person>)
    ensures |persons| == |board|
    ensures forall k | 0 <= k < |board| :: persons[k] == board[k].person
  {
    seq(|board|, k requires 0 <= k < |board| => board[k].person)
  }

  /** The leaderboard has one row per registered person involved in the window. */
  lemma LeaderboardMembers(registry: seq<Person>, votes: seq<Vote>, expected: Expectation)
    ensures var board := Leaderboard(registry, votes, expected);
      && multiset(Persons(board)) == multiset(Scored(registry, votes))
      && forall p :: p in Persons(board) <==> p in registry && p.id in InvolvedIds(votes)
  {
    var board := Leaderboard(registry, votes, expected);
    var persons := Scored(registry, votes);
    if votes == [] {
      assert InvolvedIds(votes) == {};
      assert |persons| <= |registry|;
      EmptyInvolved(registry);
    } else {
      var order := Standing(registry, votes, expected);
      LeaderboardEntries(registry, votes, expected);
      assert Persons(board) == order;
      Sorting.SameElements(order, persons);
    }
  }

  lemma {:induction false} EmptyInvolved(registry: seq<Person>)
    ensures Involved(registry, {}) == []
  {
    if registry != [] {
      EmptyInvolved(registry[1..]);
    }
  }

  /** Rows are ranked 1, 2, ... in list order, with non-increasing scores. */
  lemma LeaderboardOrder(registry: seq<Person>, votes: seq<Vote>, expected: Expectation)
    ensures var board := Leaderboard(registry, votes, expected);
      && (forall k | 0 <= k < |board| :: board[k].rank == k + 1)
      && (forall i, j | 0 <= i < j < |board| :: board[i].elo >= board[j].elo)
  {
    if votes != [] {
      var board := Leaderboard(registry, votes, expected);
      var scores := EloScores(Scored(registry, votes), votes, expected);
      var order := Standing(registry, votes, expected);
      LeaderboardEntries(registry, votes, expected);
      assert Sorting.Ascending(order, ByScore(scores));
      forall i, j | 0 <= i < j < |board| ensures board[i].elo >= board[j].elo {
        assert ByScore(scores)(order[i]) <= ByScore(scores)(order[j]);
      }
    }
  }

  /** Every row carries its person's replayed score and the tallies of all
      windowed votes of that person, whatever the opponent; `games` is their sum. */
  lemma LeaderboardRows(registry: seq<Person>, votes: seq<Vote>, expected: Expectation)
    ensures var board := Leaderboard(registry, votes, expected);
      var scores := EloScores(Scored(registry, votes), votes, expected);
      forall k | 0 <= k < |board| ::
        && board[k].person.id in scores
        && board[k].elo == scores[board[k].person.id]
        && board[k].wins == Wins(votes, board[k].person.id)
        && board[k].losses == Losses(votes, board[k].person.id)
        && board[k].games == board[k].wins + board[k].losses
  {
    if votes != [] {
      var order := Standing(registry, votes, expected);
      LeaderboardEntries(registry, votes, expected);
      forall k | 0 <= k < |order| ensures order[k] in order { }
    }
  }

  /** A window without votes has an empty leaderboard. */
  lemma EmptyWindow(registry: seq<Person>, ledger: seq<Vote>, since: Time, expected: Expectation)
    requires forall v | v in ledger :: v.createdAt < since
    ensures Leaderboard(registry, Window(ledger, since), expected) == []
  {
  }

  /** A person whose votes all predate the window has no row, even if other
      votes fall inside it. */
  lemma AbsentOutsideWindow(registry: seq<Person>, ledger: seq<Vote>, since: Time, expected: Expectation, id: int)
    requires forall v | v in ledger && (v.winnerId == id || v.loserId == id) :: v.createdAt < since
    ensures forall k | 0 <= k < |Leaderboard(registry, Window(ledger, since), expected)| ::
      Leaderboard(registry, Window(ledger, since), expected)[k].person.id != id
  {
    var votes := Window(ledger, since);
    var board := Leaderboard(registry, votes, expected);
    LeaderboardMembers(registry, votes, expected);
    forall k | 0 <= k < |board| ensures board[k].person.id != id {
      assert Persons(board)[k] in Persons(board);
    }
  }

  /** A vote against a deleted opponent is skipped by the replay but still
      counts as a win on the leaderboard. */
  lemma DeletedOpponentStillCounted(a: Person, vote: Vote, expected: Expectation)
    requires vote.winnerId == a.id && vote.loserId != a.id
    ensures Leaderboard([a], [vote], expected) == [RankedPerson(1, a, InitialElo, 1, 0, 1)]
  {
    assert InvolvedIds([vote]) == {a.id, vote.loserId};
    assert [a][1..] == [];
    assert Scored([a], [vote]) == [a];
    assert Sorting.SortBy([vote], CreatedAtKey) == Sorting.Insert(vote, [], CreatedAtKey) == [vote];
    var init := InitialScores([a]);
    assert PersonIds([a]) == {a.id};
    assert [vote][..0] == [];
    assert Replay(init, [vote], expected) == ApplyVote(init, vote, expected) == init;
    var scores := EloScores([a], [vote], expected);
    assert Sorting.SortBy([a], ByScore(scores)) == Sorting.Insert(a, [], ByScore(scores)) == [a];
    assert Losses([vote], a.id) == Losses([vote][..0], a.id) + 0;
    assert Wins([vote], a.id) == 1 && Losses([vote], a.id) == 0;
  }

  /** The ids on either side of the votes, gathered one vote at a time. */
  method CollectIds(votes: seq<Vote>) returns (personIds: set<int>)
    ensures personIds == InvolvedIds(votes)
  {
    personIds := {};
    for i := 0 to |votes|
      invariant personIds == InvolvedIds(votes[..i])
    {
      assert votes[..i + 1] == votes[..i] + [votes[i]];
      personIds := personIds + {votes[i].winnerId};
      personIds := personIds + {votes[i].loserId};
    }
    assert votes[..|votes|] == votes;
  }

  /** Wins and losses of each of `persons` over all of `votes`, whatever the
      opponent. */
  method Tally(persons: seq<Person>, votes: seq<Vote>) returns (wins: map<int, int>, losses: map<int, int>)
    ensures wins.Keys == losses.Keys == PersonIds(persons)
    ensures forall id | id in wins :: wins[id] == Wins(votes, id)
    ensures forall id | id in losses :: losses[id] == Losses(votes, id)
  {
    wins := map id | id in PersonIds(persons) :: 0;
    losses := map id | id in PersonIds(persons) :: 0;
    for i := 0 to |votes|
      invariant wins.Keys == losses.Keys == PersonIds(persons)
      invariant forall id | id in wins :: wins[id] == Wins(votes[..i], id)
      invariant forall id | id in losses :: losses[id] == Losses(votes[..i], id)
    {
      assert votes[..i + 1][..i] == votes[..i];
      assert votes[..i + 1][i] == votes[i];
      ghost var w, l := votes[i].winnerId, votes[i].loserId;
      assert forall id :: Wins(votes[..i + 1], id) == Wins(votes[..i], id) + (if w == id then 1 else 0);
      assert forall id :: Losses(votes[..i + 1], id) == Losses(votes[..i], id) + (if l == id then 1 else 0);
      if votes[i].winnerId in wins {
        wins := wins[votes[i].winnerId := wins[votes[i].winnerId] + 1];
      }
      if votes[i].loserId in losses {
        losses := losses[votes[i].loserId := losses[votes[i].loserId] + 1];
      }
    }
    assert votes[..|votes|] == votes;
  }

  /** Numbers the persons of `order` from 1 and attaches score and tallies. */
  method Annotate(order: seq<Person>, scores: map<int, real>, wins: map<int, int>, losses: map<int, int>,
                  ghost votes: seq<Vote>)
    returns (ranked: seq<RankedPerson>)
    requires forall p | p in order :: p.id in scores && p.id in wins && p.id in losses
    requires forall id | id in wins :: wins[id] == Wins(votes, id)
    requires forall id | id in losses :: losses[id] == Losses(votes, id)
    ensures |ranked| == |order|
    ensures forall k | 0 <= k < |order| :: ranked[k] == Entry(k, order[k], scores, votes)
  {
    ranked := [];
    for k := 0 to |order|
      invariant |ranked| == k
      invariant forall j | 0 <= j < k :: ranked[j] == Entry(j, order[j], scores, votes)
    {
      var person := order[k];
      assert person in order;
      ranked := ranked + [RankedPerson(k + 1, person, scores[person.id], wins[person.id], losses[person.id],
                                       wins[person.id] + losses[person.id])];
    }
  }

  lemma LeaderboardEntries(registry: seq<Person>, votes: seq<Vote>, expected: Expectation)
    requires votes != []
    ensures var board, order := Leaderboard(registry, votes, expected), Standing(registry, votes, expected);
      var scores := EloScores(Scored(registry, votes), votes, expected);
      && |board| == |order|
      && forall k | 0 <= k < |order| :: board[k] == Entry(k, order[k], scores, votes)
  {
  }

  lemma AnnotatedIsLeaderboard(registry: seq<Person>, votes: seq<Vote>, expected: Expectation,
                               ranked: seq<RankedPerson>)
    requires votes != []
    requires var order := Standing(registry, votes, expected);
      var scores := EloScores(Scored(registry, votes), votes, expected);
      && |ranked| == |order|
      && forall k | 0 <= k < |order| :: ranked[k] == Entry(k, order[k], scores, votes)
    ensures ranked == Leaderboard(registry, votes, expected)
  {
    LeaderboardEntries(registry, votes, expected);
  }

  /** The leaderboard route, over a snapshot of the two tables. */
  method GetRanking(period: Period, now: Time, registry: seq<Person>, ledger: seq<Vote>, expected: Expectation)
    returns (ranked: seq<RankedPerson>)
    ensures ranked == Leaderboard(registry, Window(ledger, PeriodStart(period, now)), expected)
  {
    var since := PeriodStart(period, now);
    var votes := Window(ledger, since);
    if |votes| == 0 {
      return [];
    }
    var personIds := CollectIds(votes);
    var persons := Involved(registry, personIds);
    var scores := ComputeElo(persons, votes, expected);
    var wins, losses := Tally(persons, votes);
    var order := Sorting.SortBy(persons, ByScore(scores));
    assert persons == Scored(registry, votes);
    assert order == Standing(registry, votes, expected);
    forall p | p in order ensures p.id in scores && p.id in wins && p.id in losses {
      assert p in multiset(order);
    }
    ranked := Annotate(order, scores, wins, losses, votes);
    AnnotatedIsLeaderboard(registry, votes, expected, ranked);
  }
}
