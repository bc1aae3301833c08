# Pairwise voting contest: vote admission and Elo leaderboard

This project models the engine of a "which of these two?" popularity contest.
The backend shows a client two candidates, records which one the client
preferred, and builds an Elo leaderboard for the last day, week, month or
year by replaying the recorded votes.

The model covers two route modules.

- `backend/routes/votes.py`, modelled in `votes.dfy` (module `Votes`):
  - `get_client_ip`: the client address taken from `X-Forwarded-For`.
  - `get_pair`: two distinct candidates, drawn nondeterministically.
  - `submit_vote`: the admission checks, then the append to the ledger.
  - The registry (`persons` table) and the ledger (`votes` table) are the
    fields of the class `VoteStore`.
- `backend/routes/ranking.py`, modelled in `ranking.dfy` (module `Ranking`):
  - `get_period_start`.
  - `compute_elo`: a loop over the chronologically sorted votes.
  - `get_ranking`: window selection, involved ids, tallies, sort and numbering.

Supporting files:

- `models.dfy` (module `Models`) holds the records of `backend/models.py` and
  `backend/schemas.py`.
- `sorting.dfy` (module `Sorting`) stands in for Python's stable `sorted`.
  It is an insertion sort, with proofs that it permutes, orders and keeps ties
  in input order.

Modelling choices:

- Timestamps are integers counting microseconds, Python's datetime resolution.
- The clock is the parameter `now`.
- Scores are exact `real`s. The expected-score formula `1 / (1 + 10 ** ((b - a) / 400))`
  is a parameter `expected`. Lemmas that need it require `Ranking.ValidExpectation`:
  the value lies strictly between 0 and 1, and equals 0.5 at equal ratings.
- As in the route, existence of both ids is checked before the self-vote
  test. So an unknown id voted against itself is answered 404, not 400.
- `sorted(persons, key=score, reverse=True)` is stable in Python. The model
  writes it as a stable ascending sort on the negated score (`Ranking.ByScore`).
  Equal scores keep registry order. The key is total: a person without a score
  would sort as 0, where Python raises `KeyError`. No kept person lacks a score,
  which `Ranking.Standing` states.
- Database queries return rows in table order. The registry and the ledger
  are sequences in insertion order, and a filtered query keeps that order.
- A new vote's id is its position in the ledger plus one. This is what SQLite
  assigns to an integer primary key when rows are never deleted.

## Model

| member | source | states |
|---|---|---|
| `Ranking.PeriodStart` | backend/routes/ranking.py:17-27 | the window starts exactly 1, 7, 30 or 365 days before `now` for day, week, month, year |
| `Ranking.PeriodsNested` | backend/routes/ranking.py:17-27 | year start < month start < week start < day start < now |
| `Ranking.Window` | backend/routes/ranking.py:72 | the selected votes are exactly the ledger votes with `createdAt >= since`; the selection is empty iff every vote is older |
| `Ranking.WindowAppend` | backend/routes/ranking.py:72 | the window of a concatenation is the concatenation of the windows, so the selection keeps ledger order and multiplicity |
| `Ranking.WindowOne` | backend/routes/ranking.py:72 | a single vote is selected exactly when `createdAt >= since` |
| `Ranking.WindowsNested` | backend/routes/ranking.py:72 | a later start selects the earlier window filtered again, so day ⊆ week ⊆ month ⊆ year |
| `Ranking.Involved` | backend/routes/ranking.py:83 | the kept persons are exactly the registry persons whose id is involved |
| `Ranking.InvolvedAppend` | backend/routes/ranking.py:83 | the persons kept from a concatenation are those kept from each part, in order, so the query keeps registry order and multiplicity |
| `Ranking.InvolvedOne` | backend/routes/ranking.py:83 | a single person is kept exactly when its id is involved |
| `Ranking.InitialScores` | backend/routes/ranking.py:35 | one score per person id, each 1000.0 |
| `Ranking.ApplyVote` | backend/routes/ranking.py:44-57 | an update never adds or removes a key |
| `Ranking.Replay` | backend/routes/ranking.py:40-57 | replaying any votes keeps the key set of the starting scores |
| `Ranking.ComputeElo` | backend/routes/ranking.py:30-59 | the result is the replay of the chronologically sorted votes over fresh scores, keyed by exactly the persons' ids |
| `Ranking.ReplayVotes` | backend/routes/ranking.py:40-57 | the loop applies the votes in list order, first to last, skipping those with an unscored side |
| `Ranking.ChronologicalOrder` | backend/routes/ranking.py:38-40 | the replay order is a permutation of the votes, ascending by `createdAt`, and votes with equal timestamps keep their input order |
| `Ranking.EloPermutationInvariant` | backend/routes/ranking.py:38-40 | with distinct timestamps any permutation of the votes gives the same scores |
| `Ranking.DanglingVoteSkipped` | backend/routes/ranking.py:44-46 | a vote with a side that has no score leaves every score unchanged |
| `Ranking.ReplayIgnoresDanglingVotes` | backend/routes/ranking.py:44-46 | removing all votes with an unscored side does not change the replay result |
| `Ranking.ApplyVoteZeroSum` | backend/routes/ranking.py:52-57 | an applied vote raises the winner by K·(1−e), lowers the loser by the same amount and changes nobody else |
| `Ranking.ApplyVoteMonotone` | backend/routes/ranking.py:52-57 | with 0 < e < 1 the winner gains and the loser loses strictly between 0 and K = 32 |
| `Ranking.DisjointVotesCommute` | backend/routes/ranking.py:40-57 | two votes on disjoint pairs give the same scores in either order |
| `Ranking.FirstMatch` | backend/routes/ranking.py:30-57 | from fresh scores one win at e = 0.5 gives exactly 1016.0 and 984.0 |
| `Ranking.TotalAfterVote` | backend/routes/ranking.py:52-57 | a vote between two different scored ids keeps the sum of all scores |
| `Ranking.EloTotal` | backend/routes/ranking.py:35-57 | when no vote names one id on both sides the total stays 1000·\|persons\| |
| `Ranking.CollectIds` | backend/routes/ranking.py:78-81 | the loop collects exactly the winner and loser ids of the windowed votes |
| `Ranking.Tally` | backend/routes/ranking.py:89-95 | wins and losses are keyed by the kept persons and count every windowed vote won or lost, whoever the opponent |
| `Ranking.Annotate` | backend/routes/ranking.py:98-111 | row k gets rank k+1, the person's score and tallies, and `games = wins + losses` |
| `Ranking.Standing` | backend/routes/ranking.py:100 | the sorted persons are the kept persons as a multiset, same length, each with a replayed score |
| `Ranking.StandingTies` | backend/routes/ranking.py:100 | persons with equal scores keep their registry order in the standing |
| `Ranking.Leaderboard` | backend/routes/ranking.py:74-111 | no windowed vote gives no rows; otherwise one row per kept person |
| `Ranking.GetRanking` | backend/routes/ranking.py:62-113 | the route returns the leaderboard of the votes in the period's window |
| `Ranking.LeaderboardMembers` | backend/routes/ranking.py:77-111 | the rows hold one entry per registered person involved in the window, as a multiset |
| `Ranking.LeaderboardOrder` | backend/routes/ranking.py:97-111 | ranks are 1..n in list order and scores do not increase along the list |
| `Ranking.LeaderboardRows` | backend/routes/ranking.py:89-111 | each row holds the replayed score, the win and loss counts of all windowed votes, and their sum as games |
| `Ranking.EmptyWindow` | backend/routes/ranking.py:72-75 | no vote at or after `since` gives an empty leaderboard |
| `Ranking.AbsentOutsideWindow` | backend/routes/ranking.py:72-83 | a person whose votes all precede `since` has no row |
| `Ranking.DeletedOpponentStillCounted` | backend/routes/ranking.py:89-95 | a win against a deleted opponent leaves the score at 1000 but shows one win and one game |
| `Sorting.SortBy` | backend/routes/ranking.py:38 | the sort returns a permutation of its input, ascending by key |
| `Sorting.SortByStable` | backend/routes/ranking.py:38 | for every key the elements carrying it keep their input order |
| `Sorting.SortByPermutationInvariant` | backend/routes/ranking.py:38 | when keys separate the elements the result depends only on the multiset of the input |
| `Votes.FirstField` | backend/routes/votes.py:17 | the result is the prefix before the first comma, or all of the text |
| `Votes.Strip` | backend/routes/votes.py:17 | the result neither starts nor ends with whitespace |
| `Votes.StripOf` | backend/routes/votes.py:17 | stripping removes exactly the surrounding whitespace and nothing else |
| `Votes.GetClientIp` | backend/routes/votes.py:13-18 | without a non-empty header the peer host is the address; otherwise the result has no comma and no surrounding whitespace |
| `Votes.ClientIpOfHeader` | backend/routes/votes.py:13-18 | a non-empty header yields its first comma-separated field, stripped |
| `Votes.VoteStore.GetPair` | backend/routes/votes.py:21-32 | 404 iff fewer than two persons; otherwise two persons at distinct registry positions; with exactly two persons, those two |
| `Votes.VoteStore.SubmitVote` | backend/routes/votes.py:35-75 | outcome and error as decided by the admission checks; on success exactly one vote with the given ids, the client address and `createdAt = now` is appended and the ledger invariant is kept |
| `Votes.Rejection` | backend/routes/votes.py:41-68 | 404 iff an id is unknown; 400 iff both exist and are equal; 429 iff both exist, differ and a same-address vote on the pair is at most 24 h old |
| `Votes.AdmittedIff` | backend/routes/votes.py:41-68 | a vote is admitted iff both ids exist, they differ, and no same-address vote on the same pair is at most 24 h old |
| `Votes.UnknownBeforeSelfVote` | backend/routes/votes.py:41-50 | an unknown id voted against itself yields 404, not 400 |
| `Votes.SelfVoteRejected` | backend/routes/votes.py:47-50 | a registered id voted against itself yields 400 |
| `Votes.RejectionSymmetric` | backend/routes/votes.py:52-68 | swapping winner and loser never changes the verdict |
| `Votes.DuplicateBlocks` | backend/routes/votes.py:52-68 | a same-address vote on the pair in either orientation, at most 24 h old (exactly 24 h included), yields 429 |
| `Votes.DuplicateScope` | backend/routes/votes.py:52-63 | a vote from another address, on another pair, or strictly older than 24 h does not affect the verdict |
| `Votes.RevoteWithinDayRefused` | backend/routes/votes.py:52-75 | after admission the same vote or its reverse from that address is refused with 429 for 24 h |
| `Votes.RevoteAfterDayAdmitted` | backend/routes/votes.py:52-75 | more than 24 h after its admission a vote no longer blocks its own repetition |
| `Votes.LedgerKeepsTotal` | backend/routes/votes.py:41-75 | every admitted vote opposes two different ids, so any window's replay keeps the total at 1000 per person |

## Left out

- Floating point: scores are exact reals. Rounding in `10 ** x`, in the
  update and in `round(score, 1)` (backend/routes/ranking.py:106) is not
  modelled. A row's `elo` is the unrounded replayed score.
- The expected-score function is a parameter, because `10 ** x` on reals is
  not available. Its two required properties are stated; that the real formula
  has them is not proved.
- `Ranking.EloTotal`, `Ranking.TotalAfterVote`, `Votes.LedgerKeepsTotal`: the
  sum is preserved in exact arithmetic only; floating point does not keep it exactly.
- `Votes.VoteStore.GetPair`: `random.sample` is a nondeterministic choice of two
  distinct positions. That the draw is uniform is not captured.
- The race between the duplicate check and the insert, SQLite sessions and
  commits: concurrency and persistence plumbing
  (backend/routes/votes.py:54-74, backend/database.py).
- Clock reads become the parameter `now`. `submit_vote` reads the clock twice,
  once for the 24 h window and once for the new vote's default `created_at`.
  The model uses one instant for both.
- Naive versus timezone-aware datetime comparison in SQLite is not modelled.
- The period check at backend/routes/ranking.py:66-67 cannot fire behind the
  framework's validation of a `Literal` path parameter, so `Period` is an enumeration.
- `request.client` being absent (an exception in `get_client_ip`) is not
  modelled; the peer host is a parameter.
- Admin routes (backend/routes/admin.py): authentication, uploads, files and
  candidate creation and deletion are I/O and foreign calls. The registry
  in `VoteStore` is given at construction. The ranking functions take any
  registry snapshot, so deleted candidates are covered there.
- Image processing (backend/utils/image.py), app wiring (backend/main.py) and
  the frontend scripts: image codecs, framework setup and UI.
