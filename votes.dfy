/** The voting routes: the client address behind a proxy, the random pair,
    and the admission of a vote into the ledger. */
module Votes {
  import opened Models
  import Ranking

  /** A repeated vote on the same pair from the same address is refused for this long. */
  const DuplicateWindow: Time := 24 * HourLength

  // ---------------------------------------------------------------------------
  // Client address

  /** Python's `str.isspace` on one character. */
  predicate IsSpace(c: char)
  {
    || c == ' ' || ('\t' <= c <= '\r') || ('\U{1c}' <= c <= '\U{1f}')
    || c == '\U{85}' || c == '\U{a0}' || c == '\U{1680}' || ('\U{2000}' <= c <= '\U{200a}')
    || c == '\U{2028}' || c == '\U{2029}' || c == '\U{202f}' || c == '\U{205f}' || c == '\U{3000}'
  }

  predicate AllSpace(s: string)
  {
    forall i | 0 <= i < |s| :: IsSpace(s[i])
  }

  /** `s.split(",")[0]`: the text before the first comma, or all of `s`. */
  function FirstField(s: string): (field: string)
    ensures field <= s
    ensures ',' !in field
    ensures |field| < |s| ==> s[|field|] == ','
  {
    if s == [] || s[0] == ',' then [] else [s[0]] + FirstField(s[1..])
  }

  /** Leading whitespace removed. */
  function TrimStart(s: string): (r: string)
    ensures |r| <= |s| && r == s[|s| - |r|..]
    ensures AllSpace(s[..|s| - |r|])
    ensures r != [] ==> !IsSpace(r[0])
  {
    if s != [] && IsSpace(s[0]) then TrimStart(s[1..]) else s
  }

  /** Trailing whitespace removed. */
  function TrimEnd(s: string): (r: string)
    ensures r <= s
    ensures AllSpace(s[|r|..])
    ensures r != [] ==> !IsSpace(r[|r| - 1])
  {
    if s != [] && IsSpace(s[|s| - 1]) then TrimEnd(s[..|s| - 1]) else s
  }

  /** Python's `str.strip()` without arguments. */
  function Strip(s: string): (r: string)
    ensures r != [] ==> !IsSpace(r[0]) && !IsSpace(r[|r| - 1])
  {
    TrimEnd(TrimStart(s))
  }

  /** `get_client_ip`: the first address of a non-empty `X-Forwarded-For`
      header, without surrounding whitespace; otherwise the peer address. */
  function GetClientIp(forwarded: Option<string>, clientHost: string): (ip: string)
    ensures forwarded.None? || forwarded.value == [] ==> ip == clientHost
    ensures forwarded.Some? && forwarded.value != [] ==>
      && ',' !in ip
      && (ip != [] ==> !IsSpace(ip[0]) && !IsSpace(ip[|ip| - 1]))
  {
    if forwarded.Some? && forwarded.value != [] then Strip(FirstField(forwarded.value))
    else clientHost
  }

  lemma {:induction false} FirstFieldOf(field: string, rest: string)
    requires ',' !in field
    requires rest == [] || rest[0] == ','
    ensures FirstField(field + rest) == field
  {
    if field != [] {
      assert (field + rest)[1..] == field[1..] + rest;
      FirstFieldOf(field[1..], rest);
    } else {
      assert field + rest == rest;
    }
  }

  lemma {:induction false} TrimStartOf(pad: string, s: string)
    requires AllSpace(pad)
    requires s == [] || !IsSpace(s[0])
    ensures TrimStart(pad + s) == s
  {
    if pad != [] {
      assert (pad + s)[1..] == pad[1..] + s;
      TrimStartOf(pad[1..], s);
    } else {
      assert pad + s == s;
    }
  }

  lemma {:induction false} TrimEndOf(s: string, pad: string)
    requires AllSpace(pad)
    requires s == [] || !IsSpace(s[|s| - 1])
    ensures TrimEnd(s + pad) == s
  {
    if pad != [] {
      var shorter := pad[..|pad| - 1];
      assert (s + pad)[..|s + pad| - 1] == s + shorter;
      TrimEndOf(s, shorter);
    } else {
      assert s + pad == s;
    }
  }

  /** `Strip` removes exactly the surrounding whitespace. */
  lemma StripOf(before: string, core: string, after: string)
    requires AllSpace(before) && AllSpace(after)
    requires core == [] || (!IsSpace(core[0]) && !IsSpace(core[|core| - 1]))
    ensures Strip(before + core + after) == core
  {
    if core == [] {
      assert before + core + after == (before + after) + [];
      TrimStartOf(before + after, []);
    } else {
      assert before + core + after == before + (core + after);
      TrimStartOf(before, core + after);
      TrimEndOf(core, after);
    }
  }

  /** The header `before + ip + after + rest`, where `rest` is empty or starts
      with the next comma, yields `ip`. */
  lemma ClientIpOfHeader(before: string, ip: string, after: string, rest: string, clientHost: string)
    requires AllSpace(before) && AllSpace(after) && ',' !in before + ip + after
    requires ip == [] || (!IsSpace(ip[0]) && !IsSpace(ip[|ip| - 1]))
    requires rest == [] || rest[0] == ','
    requires before + ip + after + rest != []
    ensures GetClientIp(Some(before + ip + after + rest), clientHost) == ip
  {
    FirstFieldOf(before + ip + after, rest);
    StripOf(before, ip, after);
  }

  // ---------------------------------------------------------------------------
  // Vote admission

  /** `v` is a vote between `a` and `b`, in either orientation. */
  predicate SamePair(v: Vote, a: int, b: int)
  {
    (v.winnerId == a && v.loserId == b) || (v.winnerId == b && v.loserId == a)
  }

  /** The ledger holds a vote from `ip` on the pair `a`, `b` cast at most
      `DuplicateWindow` before `now`. */
  predicate RecentDuplicate(ledger: seq<Vote>, a: int, b: int, ip: string, now: Time)
  {
    exists v | v in ledger :: v.voterIp == ip && v.createdAt >= now - DuplicateWindow && SamePair(v, a, b)
  }

  /** Why `submit_vote` refuses a vote, checked in the route's order: unknown
      id, then self-vote, then recent duplicate; `None` admits it. */
  function Rejection(ids: set<int>, ledger: seq<Vote>, winnerId: int, loserId: int, ip: string, now: Time): (r: Option<Status>)
    ensures r == Some(NotFound) <==> winnerId !in ids || loserId !in ids
    ensures r == Some(BadRequest) <==> winnerId in ids && loserId in ids && winnerId == loserId
    ensures r == Some(TooManyRequests) <==>
      && winnerId in ids && loserId in ids && winnerId != loserId
      && exists v | v in ledger :: v.voterIp == ip && SamePair(v, winnerId, loserId) && v.createdAt >= now - DuplicateWindow
  {
    if winnerId !in ids || loserId !in ids then Some(NotFound)
    else if winnerId == loserId then Some(BadRequest)
    else if RecentDuplicate(ledger, winnerId, loserId, ip, now) then Some(TooManyRequests)
    else None
  }

  /** A vote is admitted exactly when both ids exist, they differ, and no vote
      from the same address on the same pair is at most a day old. */
  lemma AdmittedIff(ids: set<int>, ledger: seq<Vote>, winnerId: int, loserId: int, ip: string, now: Time)
    ensures Rejection(ids, ledger, winnerId, loserId, ip, now) == None <==>
      && winnerId in ids && loserId in ids && winnerId != loserId
      && forall v | v in ledger && v.voterIp == ip && SamePair(v, winnerId, loserId) ::
           v.createdAt < now - DuplicateWindow
  {
  }

  /** An unknown id is reported as unknown even when it is voted against itself. */
  lemma UnknownBeforeSelfVote(ids: set<int>, ledger: seq<Vote>, id: int, ip: string, now: Time)
    requires id !in ids
    ensures Rejection(ids, ledger, id, id, ip, now) == Some(NotFound)
  {
  }

  /** A registered id voted against itself is a bad request. */
  lemma SelfVoteRejected(ids: set<int>, ledger: seq<Vote>, id: int, ip: string, now: Time)
    requires id in ids
    ensures Rejection(ids, ledger, id, id, ip, now) == Some(BadRequest)
  {
  }

  /** Swapping winner and loser never changes the verdict. */
  lemma RejectionSymmetric(ids: set<int>, ledger: seq<Vote>, winnerId: int, loserId: int, ip: string, now: Time)
    ensures Rejection(ids, ledger, winnerId, loserId, ip, now) == Rejection(ids, ledger, loserId, winnerId, ip, now)
  {
    if RecentDuplicate(ledger, winnerId, loserId, ip, now) {
      var v :| v in ledger && v.voterIp == ip && v.createdAt >= now - DuplicateWindow && SamePair(v, winnerId, loserId);
      assert SamePair(v, loserId, winnerId);
    }
    if RecentDuplicate(ledger, loserId, winnerId, ip, now) {
      var v :| v in ledger && v.voterIp == ip && v.createdAt >= now - DuplicateWindow && SamePair(v, loserId, winnerId);
      assert SamePair(v, winnerId, loserId);
    }
  }

  /** A vote from the same address on the same pair, in either orientation and
      at most a day old (a vote exactly a day old included), blocks. */
  lemma DuplicateBlocks(ids: set<int>, ledger: seq<Vote>, prior: Vote, winnerId: int, loserId: int, ip: string, now: Time)
    requires winnerId in ids && loserId in ids && winnerId != loserId
    requires prior in ledger && prior.voterIp == ip && SamePair(prior, winnerId, loserId)
    requires now - DuplicateWindow <= prior.createdAt
    ensures Rejection(ids, ledger, winnerId, loserId, ip, now) == Some(TooManyRequests)
  {
  }

  /** A vote from another address, on another pair, or strictly older than a
      day does not change the verdict. */
  lemma DuplicateScope(ids: set<int>, ledger: seq<Vote>, other: Vote, winnerId: int, loserId: int, ip: string, now: Time)
    requires other.voterIp != ip || !SamePair(other, winnerId, loserId) || other.createdAt < now - DuplicateWindow
    ensures Rejection(ids, ledger + [other], winnerId, loserId, ip, now) == Rejection(ids, ledger, winnerId, loserId, ip, now)
  {
    if RecentDuplicate(ledger + [other], winnerId, loserId, ip, now) {
      var v :| v in ledger + [other] && v.voterIp == ip && v.createdAt >= now - DuplicateWindow && SamePair(v, winnerId, loserId);
      assert v in ledger;
    }
  }

  /** Once admitted, the same vote, or its reverse, from the same address is
      refused for the next day. */
  lemma RevoteWithinDayRefused(ids: set<int>, ledger: seq<Vote>, admitted: Vote, winnerId: int, loserId: int, later: Time)
    requires admitted.winnerId in ids && admitted.loserId in ids && admitted.winnerId != admitted.loserId
    requires SamePair(admitted, winnerId, loserId)
    requires admitted.createdAt <= later <= admitted.createdAt + DuplicateWindow
    ensures Rejection(ids, ledger + [admitted], winnerId, loserId, admitted.voterIp, later) == Some(TooManyRequests)
  {
    DuplicateBlocks(ids, ledger + [admitted], admitted, winnerId, loserId, admitted.voterIp, later);
  }

  /** A vote admitted at `now` against a ledger of earlier votes no longer
      blocks its own repetition more than a day later. */
  lemma RevoteAfterDayAdmitted(ids: set<int>, ledger: seq<Vote>, id: int, winnerId: int, loserId: int, ip: string,
                               now: Time, later: Time)
    requires forall v | v in ledger :: v.createdAt <= now
    requires Rejection(ids, ledger, winnerId, loserId, ip, now) == None
    requires later > now + DuplicateWindow
    ensures Rejection(ids, ledger + [Vote(id, winnerId, loserId, ip, now)], winnerId, loserId, ip, later) == None
  {
    var admitted := Vote(id, winnerId, loserId, ip, now);
    forall v | v in ledger + [admitted] && v.voterIp == ip && SamePair(v, winnerId, loserId)
      ensures v.createdAt < later - DuplicateWindow
    {
      if v in ledger {
        assert !(v.createdAt >= now - DuplicateWindow);
      }
    }
  }

  // ---------------------------------------------------------------------------
  // The two tables

  /** Every vote of a ledger built by `submit_vote` is numbered by its
      position and opposes two different candidates. */
  ghost predicate LedgerInvariant(ledger: seq<Vote>)
  {
    forall i | 0 <= i < |ledger| :: ledger[i].id == i + 1 && ledger[i].winnerId != ledger[i].loserId
  }

  /** The candidate registry and the vote ledger. */
  class VoteStore {
    var persons: seq<Person>
    var votes: seq<Vote>

    ghost predicate Valid()
      reads this
    {
      DistinctIds(persons) && LedgerInvariant(votes)
    }

    constructor (registry: seq<Person>)
      requires DistinctIds(registry)
      ensures Valid()
      ensures persons == registry && votes == []
    {
      persons := registry;
      votes := [];
    }

    /** `get_pair`: two candidates at different positions of the registry,
        or 404 when there are fewer than two. */
    method GetPair() returns (r: Result<Pair>)
      ensures r.Err? <==> |persons| < 2
      ensures r.Err? ==> r.error == NotFound
      ensures r.Ok? ==> exists i, j | 0 <= i < |persons| && 0 <= j < |persons| ::
        i != j && r.value == Pair(persons[i], persons[j])
      ensures |persons| == 2 ==> r == Ok(Pair(persons[0], persons[1])) || r == Ok(Pair(persons[1], persons[0]))
      ensures r.Ok? && DistinctIds(persons) ==> r.value.left.id != r.value.right.id
    {
      if |persons| < 2 {
        return Err(NotFound);
      }
      var i, j :| 0 <= i < |persons| && 0 <= j < |persons| && i != j;
      r := Ok(Pair(persons[i], persons[j]));
      if DistinctIds(persons) {
        if i < j {
          assert persons[i].id != persons[j].id;
        } else {
          assert persons[j].id != persons[i].id;
        }
      }
    }

    /** `submit_vote`: checks the vote from the client behind `forwarded` /
        `clientHost` and, when nothing rejects it, appends it stamped `now`. */
    method SubmitVote(winnerId: int, loserId: int, forwarded: Option<string>, clientHost: string, now: Time)
      returns (r: Result<Vote>)
      requires Valid()
      modifies this
      ensures Valid()
      ensures persons == old(persons)
      ensures var rejection := Rejection(PersonIds(persons), old(votes), winnerId, loserId,
                                         GetClientIp(forwarded, clientHost), now);
        && (r.Err? <==> rejection.Some?)
        && (r.Err? ==> r.error == rejection.value && votes == old(votes))
      ensures r.Ok? ==>
        && r.value == Vote(|old(votes)| + 1, winnerId, loserId, GetClientIp(forwarded, clientHost), now)
        && votes == old(votes) + [r.value]
        && winnerId in PersonIds(persons) && loserId in PersonIds(persons) && winnerId != loserId
    {
      var ip := GetClientIp(forwarded, clientHost);

      var winnerFound := exists p | p in persons :: p.id == winnerId;
      var loserFound := exists p | p in persons :: p.id == loserId;
      if !winnerFound || !loserFound {
        return Err(NotFound);
      }

      if winnerId == loserId {
        return Err(BadRequest);
      }

      var since := now - DuplicateWindow;
      var existing := exists v | v in votes :: v.voterIp == ip && v.createdAt >= since && SamePair(v, winnerId, loserId);
      if existing {
        return Err(TooManyRequests);
      }

      var newVote := Vote(|votes| + 1, winnerId, loserId, ip, now);
      votes := votes + [newVote];
      r := Ok(newVote);
    }
  }

  /** Every vote admitted by `SubmitVote` opposes two different candidates, so
      over any window the replay keeps the total at 1000 per scored person. */
  lemma LedgerKeepsTotal(persons: seq<Person>, ledger: seq<Vote>, since: Time, expected: Ranking.Expectation)
    requires LedgerInvariant(ledger)
    requires DistinctIds(persons)
    ensures Ranking.Total(Ranking.EloScores(persons, Ranking.Window(ledger, since), expected), Ranking.IdList(persons))
         == Ranking.InitialElo * |persons| as real
  {
    var votes := Ranking.Window(ledger, since);
    forall v | v in votes ensures v.winnerId != v.loserId {
      var i :| 0 <= i < |ledger| && ledger[i] == v;
    }
    Ranking.EloTotal(persons, votes, expected);
  }
}
