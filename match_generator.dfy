/** The round-robin pairing generator of a group: it emits one match shell per
    unordered pair of teams, never pairing two teams twice and never letting a
    team play a third match in a row unless every streak was reset, and then
    shuffles the list. `Math.random` is a nondeterministic choice of an index
    in range. */
module MatchGenerator {
  import opened Models
  import opened PairCount

  /** The per-team bookkeeping record of the generator. */
  datatype TeamMatchCount = TeamMatchCount(
    teamId: int,
    consecutiveMatches: nat,
    totalMatches: nat,
    opponents: set<int>)

  /** The stats table, keyed by team id. */
  type Stats = map<int, TeamMatchCount>

  /** Team ids are distinct (they are database keys). */
  predicate DistinctIds(teams: seq<Team>)
  {
    forall a, b :: 0 <= a < |teams| && 0 <= b < |teams| && a != b ==> teams[a].teamId != teams[b].teamId
  }

  predicate HasStats(teams: seq<Team>, stats: Stats)
  {
    forall k :: 0 <= k < |teams| ==> teams[k].teamId in stats
  }

  /** Some team among the first `k` has this id. */
  predicate AmongFirst(teams: seq<Team>, k: int, id: int)
  {
    exists q :: 0 <= q < k && q < |teams| && teams[q].teamId == id
  }

  /** `canTeamsPlay`: the teams have not met and neither has played two in a row. */
  function CanTeamsPlay(team1Stats: TeamMatchCount, team2Stats: TeamMatchCount): (r: bool)
    ensures !r <==> team2Stats.teamId in team1Stats.opponents ||
                    team1Stats.consecutiveMatches >= 2 || team2Stats.consecutiveMatches >= 2
  {
    if team2Stats.teamId in team1Stats.opponents then false
    else if team1Stats.consecutiveMatches >= 2 || team2Stats.consecutiveMatches >= 2 then false
    else true
  }

  /** The match shell created for a pair of teams. */
  function NewMatch(group: Group, team1: Team, team2: Team): (m: MatchModel)
    ensures m.formatId == group.formatId && m.groupId == Some(group.groupId)
    ensures m.team1Id == Some(team1.teamId) && m.team2Id == Some(team2.teamId)
    ensures OnlyPairingSet(m)
  {
    MatchModel(None, None, group.formatId, Some(group.groupId), Some(team1.teamId), Some(team2.teamId),
               None, None, None, None, None, None, None)
  }

  /** Of the optional fields, only the group and the two teams are set. */
  predicate OnlyPairingSet(m: MatchModel)
  {
    m.matchId.None? && m.parentMatchId.None? && m.team1FinalScore.None? && m.team2FinalScore.None? &&
    m.umpireId.None? && m.courtNum.None? && m.winnerId.None? && m.result.None? && m.extendData.None? &&
    m.groupId.Some? && m.team1Id.Some? && m.team2Id.Some?
  }

  predicate Involves(m: MatchModel, id: int)
  {
    m.team1Id == Some(id) || m.team2Id == Some(id)
  }

  /** The two matches are between the same two teams, in either order. */
  predicate SamePairing(m1: MatchModel, m2: MatchModel)
  {
    (m1.team1Id == m2.team1Id && m1.team2Id == m2.team2Id) ||
    (m1.team1Id == m2.team2Id && m1.team2Id == m2.team1Id)
  }

  predicate NoRepeatedPairing(ms: seq<MatchModel>)
  {
    forall a, b :: 0 <= a < b < |ms| ==> !SamePairing(ms[a], ms[b])
  }

  /** The number of matches the team takes part in. */
  function Appearances(ms: seq<MatchModel>, id: int): nat
  {
    if ms == [] then 0
    else Appearances(ms[..|ms| - 1], id) + (if Involves(ms[|ms| - 1], id) then 1 else 0)
  }

  /** The length of the team's run of matches at the end of `ms`, not looking
      before index `from`. */
  function Streak(ms: seq<MatchModel>, id: int, from: nat): nat
    decreases |ms|
  {
    if |ms| > from && Involves(ms[|ms| - 1], id) then 1 + Streak(ms[..|ms| - 1], id, from) else 0
  }

  /** No team is in three consecutive matches unless a reset (recorded as the
      number of matches emitted when it happened) falls between them. */
  ghost predicate NoThreeInARow(ms: seq<MatchModel>, resets: set<nat>)
  {
    forall k: nat, id :: k + 2 < |ms| && k + 1 !in resets && k + 2 !in resets ==> !ThreeInARow(ms, k, id)
  }

  /** The team is in the matches at `k`, `k + 1` and `k + 2`. */
  predicate ThreeInARow(ms: seq<MatchModel>, k: nat, id: int)
    requires k + 2 < |ms|
  {
    Involves(ms[k], id) && Involves(ms[k + 1], id) && Involves(ms[k + 2], id)
  }

  /** The team played both of the two matches just before position `c`. */
  predicate Tired(ms: seq<MatchModel>, c: nat, id: int)
    requires 2 <= c <= |ms|
  {
    Involves(ms[c - 2], id) && Involves(ms[c - 1], id)
  }

  /** A reset after the first `c` matches was forced: no reset fell between the
      last two of them, and every pair `i < j` still without its shell had a
      team that played both, so `canTeamsPlay` held for no pair. */
  ghost predicate ForcedReset(group: Group, teams: seq<Team>, ms: seq<MatchModel>, resets: set<nat>, c: nat)
  {
    2 <= c <= |ms| && c - 1 !in resets && Blocked(group, teams, ms, c)
  }

  /** After the first `c` matches, every pair `i < j` still without its shell has
      a team that played both of the last two. */
  ghost predicate Blocked(group: Group, teams: seq<Team>, ms: seq<MatchModel>, c: nat)
    requires 2 <= c <= |ms|
  {
    forall i, j :: 0 <= i < j < |teams| && NewMatch(group, teams[i], teams[j]) !in ms[..c] ==>
      Tired(ms, c, teams[i].teamId) || Tired(ms, c, teams[j].teamId)
  }

  /** Every recorded reset was forced. */
  ghost predicate ResetsForced(group: Group, teams: seq<Team>, ms: seq<MatchModel>, resets: set<nat>)
  {
    forall c :: c in resets ==> ForcedReset(group, teams, ms, resets, c)
  }

  predicate AllZero(teams: seq<Team>, stats: Stats)
  {
    forall k :: 0 <= k < |teams| && teams[k].teamId in stats ==> stats[teams[k].teamId].consecutiveMatches == 0
  }

  predicate Before(p: (int, int), q: (int, int))
  {
    p.0 < q.0 || (p.0 == q.0 && p.1 < q.1)
  }

  predicate Sorted(ps: seq<(int, int)>)
  {
    forall a, b :: 0 <= a < b < |ps| ==> Before(ps[a], ps[b])
  }

  /* ---------- The invariant of the generation loop ---------- */

  ghost predicate StatsShape(teams: seq<Team>, stats: Stats)
  {
    forall a :: 0 <= a < |teams| ==> teams[a].teamId in stats && stats[teams[a].teamId].teamId == teams[a].teamId
  }

  /** `order[k]` is the index pair of the teams of the k-th emitted match. */
  ghost predicate OrderAgrees(group: Group, teams: seq<Team>, ordered: seq<MatchModel>, order: seq<(int, int)>)
  {
    |order| == |ordered| &&
    forall k :: 0 <= k < |order| ==>
      0 <= order[k].0 < order[k].1 < |teams| && ordered[k] == NewMatch(group, teams[order[k].0], teams[order[k].1])
  }

  /** Opponent sets record exactly the pairs played so far. */
  ghost predicate OpponentsAgree(teams: seq<Team>, stats: Stats, played: set<(int, int)>)
    requires StatsShape(teams, stats)
  {
    forall a, b :: 0 <= a < |teams| && 0 <= b < |teams| ==>
      (teams[b].teamId in stats[teams[a].teamId].opponents <==> (a, b) in played || (b, a) in played)
  }

  /** `totalMatches` is the size of the opponent set and the team's number of matches. */
  ghost predicate CountsAgree(teams: seq<Team>, stats: Stats, ordered: seq<MatchModel>)
    requires StatsShape(teams, stats)
  {
    forall a :: 0 <= a < |teams| ==>
      stats[teams[a].teamId].totalMatches == |stats[teams[a].teamId].opponents| &&
      stats[teams[a].teamId].totalMatches == Appearances(ordered, teams[a].teamId)
  }

  /** `consecutiveMatches` is the team's run since the last forced reset. */
  ghost predicate StreaksAgree(teams: seq<Team>, stats: Stats, ordered: seq<MatchModel>, lastReset: nat)
    requires StatsShape(teams, stats)
  {
    forall a :: 0 <= a < |teams| ==>
      stats[teams[a].teamId].consecutiveMatches == Streak(ordered, teams[a].teamId, lastReset)
  }

  ghost predicate ResetLog(resets: set<nat>, lastReset: nat, emitted: nat)
  {
    lastReset <= emitted && (forall c :: c in resets ==> c <= lastReset) && (lastReset == 0 || lastReset in resets)
  }

  ghost predicate ScheduleInv(group: Group, teams: seq<Team>, stats: Stats, ordered: seq<MatchModel>,
                              order: seq<(int, int)>, played: set<(int, int)>, resets: set<nat>, lastReset: nat)
  {
    && DistinctIds(teams)
    && StatsShape(teams, stats)
    && OrderAgrees(group, teams, ordered, order)
    && (forall p :: p in played <==> p in order)
    && |played| == |ordered|
    && OpponentsAgree(teams, stats, played)
    && CountsAgree(teams, stats, ordered)
    && StreaksAgree(teams, stats, ordered, lastReset)
    && ResetLog(resets, lastReset, |ordered|)
    && NoRepeatedPairing(ordered)
    && NoThreeInARow(ordered, resets)
  }

  /** A team's record after it played `opponent`: one more opponent, one more
      match on both counters. */
  function Played(s: TeamMatchCount, opponent: int): TeamMatchCount
  {
    s.(opponents := s.opponents + {opponent},
       consecutiveMatches := s.consecutiveMatches + 1,
       totalMatches := s.totalMatches + 1)
  }

  /** The stats after emitting the match of teams `a` and `b`: both gain the
      other as opponent and one match on each counter, everyone else's streak
      is reset. */
  ghost predicate EmitEffect(teams: seq<Team>, stats: Stats, stats': Stats, a: int, b: int)
    requires HasStats(teams, stats)
  {
    stats'.Keys == stats.Keys &&
    forall k :: 0 <= k < |teams| ==>
      var id := teams[k].teamId;
      stats'[id] ==
        if id == a then Played(stats[id], b)
        else if id == b then Played(stats[id], a)
        else stats[id].(consecutiveMatches := 0)
  }

  /* ---------- The operations ---------- */

  /** The stats table as first built: one zeroed record per team. */
  method InitTeamStats(teams: seq<Team>) returns (teamStats: Stats)
    ensures forall k :: 0 <= k < |teams| ==>
              teams[k].teamId in teamStats && teamStats[teams[k].teamId] == TeamMatchCount(teams[k].teamId, 0, 0, {})
    ensures forall id :: id in teamStats ==> AmongFirst(teams, |teams|, id)
  {
    teamStats := map[];
    for k := 0 to |teams|
      invariant forall q :: 0 <= q < k ==>
                  teams[q].teamId in teamStats && teamStats[teams[q].teamId] == TeamMatchCount(teams[q].teamId, 0, 0, {})
      invariant forall id :: id in teamStats ==> AmongFirst(teams, k, id)
    {
      teamStats := teamStats[teams[k].teamId := TeamMatchCount(teams[k].teamId, 0, 0, {})];
    }
  }

  /** `findAvailablePairs`: the index pairs `(i, j)`, `i < j`, whose teams can
      play, in increasing order. */
  method FindAvailablePairs(teams: seq<Team>, teamStats: Stats) returns (availablePairs: seq<(int, int)>)
    requires HasStats(teams, teamStats)
    ensures forall k :: 0 <= k < |availablePairs| ==> 0 <= availablePairs[k].0 < availablePairs[k].1 < |teams|
    ensures forall i, j :: 0 <= i < j < |teams| ==>
              ((i, j) in availablePairs <==> CanTeamsPlay(teamStats[teams[i].teamId], teamStats[teams[j].teamId]))
    ensures Sorted(availablePairs)
  {
    availablePairs := [];
    for i := 0 to |teams|
      invariant forall k :: 0 <= k < |availablePairs| ==>
                  0 <= availablePairs[k].0 < availablePairs[k].1 < |teams| && availablePairs[k].0 < i
      invariant forall i', j' :: 0 <= i' < i && i' < j' < |teams| ==>
                  ((i', j') in availablePairs <==> CanTeamsPlay(teamStats[teams[i'].teamId], teamStats[teams[j'].teamId]))
      invariant Sorted(availablePairs)
    {
      for j := i + 1 to |teams|
        invariant forall k :: 0 <= k < |availablePairs| ==>
                    0 <= availablePairs[k].0 < availablePairs[k].1 < |teams| && Before(availablePairs[k], (i, j))
        invariant forall i', j' :: 0 <= i' < j' < |teams| && Before((i', j'), (i, j)) ==>
                    ((i', j') in availablePairs <==> CanTeamsPlay(teamStats[teams[i'].teamId], teamStats[teams[j'].teamId]))
        invariant Sorted(availablePairs)
      {
        if CanTeamsPlay(teamStats[teams[i].teamId], teamStats[teams[j].teamId]) {
          availablePairs := availablePairs + [(i, j)];
        }
      }
    }
  }

  /** `updateTeamStats`: each team gains the other as opponent, and one match on
      both counters. (With equal ids the two records are one and it gains two.) */
  method UpdateTeamStats(teamStats: Stats, team1Id: int, team2Id: int) returns (r: Stats)
    requires team1Id in teamStats && team2Id in teamStats
    ensures r.Keys == teamStats.Keys
    ensures team1Id != team2Id ==>
              r[team1Id] == Played(teamStats[team1Id], team2Id) && r[team2Id] == Played(teamStats[team2Id], team1Id)
    ensures team1Id == team2Id ==> r[team1Id] == Played(Played(teamStats[team1Id], team1Id), team1Id)
    ensures forall id :: id in teamStats && id != team1Id && id != team2Id ==> r[id] == teamStats[id]
  {
    r := teamStats;
    r := r[team1Id := r[team1Id].(opponents := r[team1Id].opponents + {team2Id})];
    r := r[team2Id := r[team2Id].(opponents := r[team2Id].opponents + {team1Id})];
    r := r[team1Id := r[team1Id].(consecutiveMatches := r[team1Id].consecutiveMatches + 1)];
    r := r[team2Id := r[team2Id].(consecutiveMatches := r[team2Id].consecutiveMatches + 1)];
    r := r[team1Id := r[team1Id].(totalMatches := r[team1Id].totalMatches + 1)];
    r := r[team2Id := r[team2Id].(totalMatches := r[team2Id].totalMatches + 1)];
  }

  /** The forced reset: every record's streak goes back to 0. */
  method ResetConsecutive(teamStats: Stats) returns (r: Stats)
    ensures r.Keys == teamStats.Keys
    ensures forall id :: id in teamStats ==> r[id] == teamStats[id].(consecutiveMatches := 0)
  {
    r := teamStats;
    var todo := teamStats.Items;
    while todo != {}
      invariant todo <= teamStats.Items && r.Keys == teamStats.Keys
      invariant forall id :: id in teamStats ==>
                  r[id] == if (id, teamStats[id]) in todo then teamStats[id] else teamStats[id].(consecutiveMatches := 0)
      decreases |todo|
    {
      var entry :| entry in todo;
      r := r[entry.0 := r[entry.0].(consecutiveMatches := 0)];
      todo := todo - {entry};
    }
  }

  /** After a match: the streak of every team not in it goes back to 0. */
  method ResetOthers(teams: seq<Team>, teamStats: Stats, team1Id: int, team2Id: int) returns (r: Stats)
    ensures r.Keys == teamStats.Keys
    ensures forall id :: id in teamStats ==>
              r[id] == if id != team1Id && id != team2Id && AmongFirst(teams, |teams|, id)
                       then teamStats[id].(consecutiveMatches := 0) else teamStats[id]
  {
    r := teamStats;
    for k := 0 to |teams|
      invariant r.Keys == teamStats.Keys
      invariant forall id :: id in teamStats ==>
                  r[id] == if id != team1Id && id != team2Id && AmongFirst(teams, k, id)
                           then teamStats[id].(consecutiveMatches := 0) else teamStats[id]
    {
      var team := teams[k];
      if team.teamId != team1Id && team.teamId != team2Id && team.teamId in r {
        r := r[team.teamId := r[team.teamId].(consecutiveMatches := 0)];
      }
    }
  }

  /** `shuffleArray`: Fisher-Yates on a copy; the result is a permutation of the input. */
  method ShuffleArray<T>(input: seq<T>) returns (shuffled: seq<T>)
    ensures |shuffled| == |input|
    ensures multiset(shuffled) == multiset(input)
  {
    var a := new T[|input|](k requires 0 <= k < |input| => input[k]);
    assert a[..] == input;
    var i := |input| - 1;
    while i > 0
      invariant i < |input|
      invariant multiset(a[..]) == multiset(input)
    {
      var j :| 0 <= j <= i;
      a[i], a[j] := a[j], a[i];
      i := i - 1;
    }
    shuffled := a[..];
  }

  /** `generateMatches`: returns the shuffled matches; `schedule` is the order
      in which they were generated and `resets` the number of matches emitted
      at each forced reset. */
  method GenerateMatches(group: Group, teams: seq<Team>)
    returns (matches: seq<MatchModel>, ghost schedule: seq<MatchModel>, ghost resets: set<nat>)
    requires DistinctIds(teams)
    ensures |matches| == |teams| * (|teams| - 1) / 2
    ensures |teams| < 2 ==> matches == []
    ensures forall i, j :: 0 <= i < j < |teams| ==> NewMatch(group, teams[i], teams[j]) in matches
    ensures forall m :: m in matches ==>
              exists i, j :: 0 <= i < j < |teams| && m == NewMatch(group, teams[i], teams[j])
    ensures forall m :: m in matches ==>
              m.formatId == group.formatId && m.groupId == Some(group.groupId) && OnlyPairingSet(m)
    ensures NoRepeatedPairing(matches)
    ensures multiset(matches) == multiset(schedule)
    ensures NoRepeatedPairing(schedule)
    ensures NoThreeInARow(schedule, resets)
    ensures ResetsForced(group, teams, schedule, resets)
  {
    var ordered;
    ordered, resets := BuildSchedule(group, teams);
    schedule := ordered;
    matches := ShuffleArray(ordered);
    PermutationKeepsPairings(group, teams, ordered, matches);
  }

  /** The generation loop of `generateMatches`, before the shuffle. */
  method BuildSchedule(group: Group, teams: seq<Team>) returns (ordered: seq<MatchModel>, ghost resets: set<nat>)
    requires DistinctIds(teams)
    ensures |ordered| == |teams| * (|teams| - 1) / 2
    ensures forall i, j :: 0 <= i < j < |teams| ==> NewMatch(group, teams[i], teams[j]) in ordered
    ensures forall m :: m in ordered ==>
              exists i, j :: 0 <= i < j < |teams| && m == NewMatch(group, teams[i], teams[j])
    ensures NoRepeatedPairing(ordered)
    ensures NoThreeInARow(ordered, resets)
    ensures ResetsForced(group, teams, ordered, resets)
  {
    ordered := [];
    var teamStats := InitTeamStats(teams);
    var totalMatchesNeeded := |teams| * (|teams| - 1) / 2;
    ghost var order: seq<(int, int)> := [];
    ghost var played: set<(int, int)> := {};
    ghost var lastReset: nat := 0;
    resets := {};
    InitialInv(group, teams, teamStats);

    while |ordered| < totalMatchesNeeded
      invariant ScheduleInv(group, teams, teamStats, ordered, order, played, resets, lastReset)
      invariant ResetsForced(group, teams, ordered, resets)
      invariant |ordered| <= totalMatchesNeeded
      decreases totalMatchesNeeded - |ordered|, if AllZero(teams, teamStats) then 0 else 1
    {
      var availablePairs := FindAvailablePairs(teams, teamStats);
      if |availablePairs| == 0 {
        ghost var before := teamStats;
        teamStats := ResetConsecutive(teamStats);
        ResetStep(group, teams, before, teamStats, ordered, order, played, resets, lastReset, availablePairs);
        ghost var emitted: nat := |ordered|;
        resets := resets + {emitted};
        lastReset := |ordered|;
      } else {
        var randomIndex :| 0 <= randomIndex < |availablePairs|;
        var (i, j) := availablePairs[randomIndex];
        var team1, team2 := teams[i], teams[j];
        var newMatch := NewMatch(group, team1, team2);
        ghost var before := teamStats;
        teamStats := UpdateTeamStats(teamStats, team1.teamId, team2.teamId);
        ghost var updated := teamStats;
        teamStats := ResetOthers(teams, teamStats, team1.teamId, team2.teamId);
        EmitStep(group, teams, before, updated, teamStats, ordered, order, played, resets, lastReset, i, j);
        ordered := ordered + [newMatch];
        order := order + [(i, j)];
        played := played + {(i, j)};
      }
    }

    CompleteSchedule(group, teams, teamStats, ordered, order, played, resets, lastReset);
  }

  /* ---------- Lemmas about the loop ---------- */

  /** An empty round: the streak reset keeps the invariant, is recorded as forced,
      and lowers the termination measure (some streak was not 0 before, all are after). */
  lemma ResetStep(group: Group, teams: seq<Team>, stats: Stats, stats': Stats, ordered: seq<MatchModel>,
                  order: seq<(int, int)>, played: set<(int, int)>, resets: set<nat>, lastReset: nat,
                  availablePairs: seq<(int, int)>)
    requires ScheduleInv(group, teams, stats, ordered, order, played, resets, lastReset)
    requires ResetsForced(group, teams, ordered, resets)
    requires |ordered| < |teams| * (|teams| - 1) / 2
    requires forall i, j :: 0 <= i < j < |teams| ==>
               ((i, j) in availablePairs <==> CanTeamsPlay(stats[teams[i].teamId], stats[teams[j].teamId]))
    requires |availablePairs| == 0
    requires stats'.Keys == stats.Keys
    requires forall id :: id in stats ==> stats'[id] == stats[id].(consecutiveMatches := 0)
    ensures ScheduleInv(group, teams, stats', ordered, order, played, resets + {|ordered|}, |ordered|)
    ensures ResetsForced(group, teams, ordered, resets + {|ordered|})
    ensures !AllZero(teams, stats) && AllZero(teams, stats')
  {
    // an unplayed pair exists, and it would be available if every streak were 0
    var i, j := UnplayedPair(group, teams, stats, ordered, order, played, resets, lastReset);
    ResetUnblocks(group, teams, stats, ordered, order, played, resets, lastReset, i, j);
    forall i', j' | 0 <= i' < j' < |teams|
      ensures !CanTeamsPlay(stats[teams[i'].teamId], stats[teams[j'].teamId])
    {
      assert (i', j') !in availablePairs;
    }
    EmptyRoundBlocked(group, teams, stats, ordered, order, played, resets, lastReset);
    ResetsForcedAdd(group, teams, ordered, resets);
    ResetInv(group, teams, stats, stats', ordered, order, played, resets, lastReset);
  }

  /** A round that emits the match of teams `i0 < j0` keeps the invariant. */
  lemma EmitStep(group: Group, teams: seq<Team>, stats: Stats, updated: Stats, stats': Stats,
                 ordered: seq<MatchModel>, order: seq<(int, int)>, played: set<(int, int)>,
                 resets: set<nat>, lastReset: nat, i0: int, j0: int)
    requires ScheduleInv(group, teams, stats, ordered, order, played, resets, lastReset)
    requires ResetsForced(group, teams, ordered, resets)
    requires 0 <= i0 < j0 < |teams|
    requires CanTeamsPlay(stats[teams[i0].teamId], stats[teams[j0].teamId])
    requires updated.Keys == stats.Keys
    requires updated[teams[i0].teamId] == Played(stats[teams[i0].teamId], teams[j0].teamId)
    requires updated[teams[j0].teamId] == Played(stats[teams[j0].teamId], teams[i0].teamId)
    requires forall id :: id in stats && id != teams[i0].teamId && id != teams[j0].teamId ==> updated[id] == stats[id]
    requires stats'.Keys == updated.Keys
    requires forall id :: id in updated ==>
               stats'[id] == if id != teams[i0].teamId && id != teams[j0].teamId && AmongFirst(teams, |teams|, id)
                             then updated[id].(consecutiveMatches := 0) else updated[id]
    ensures ScheduleInv(group, teams, stats', ordered + [NewMatch(group, teams[i0], teams[j0])],
                        order + [(i0, j0)], played + {(i0, j0)}, resets, lastReset)
    ensures ResetsForced(group, teams, ordered + [NewMatch(group, teams[i0], teams[j0])], resets)
  {
    EmitEffectOfUpdates(teams, stats, updated, stats', teams[i0].teamId, teams[j0].teamId);
    EmitInv(group, teams, stats, stats', ordered, order, played, resets, lastReset, i0, j0);
    ResetsForcedAppend(group, teams, ordered, NewMatch(group, teams[i0], teams[j0]), resets);
  }

  lemma InitialInv(group: Group, teams: seq<Team>, stats: Stats)
    requires DistinctIds(teams)
    requires forall k :: 0 <= k < |teams| ==>
               teams[k].teamId in stats && stats[teams[k].teamId] == TeamMatchCount(teams[k].teamId, 0, 0, {})
    ensures ScheduleInv(group, teams, stats, [], [], {}, {}, 0)
  {
  }

  /** Distinct ids: a team's id determines its index. */
  lemma IdIndex(teams: seq<Team>, a: int, b: int)
    requires DistinctIds(teams) && 0 <= a < |teams| && 0 <= b < |teams|
    ensures teams[a].teamId == teams[b].teamId <==> a == b
  {
  }

  /** The two stats updates after a match together have the effect the loop invariant expects. */
  lemma EmitEffectOfUpdates(teams: seq<Team>, stats: Stats, updated: Stats, stats': Stats, a: int, b: int)
    requires HasStats(teams, stats) && a != b && a in stats && b in stats
    requires updated.Keys == stats.Keys
    requires updated[a] == Played(stats[a], b) && updated[b] == Played(stats[b], a)
    requires forall id :: id in stats && id != a && id != b ==> updated[id] == stats[id]
    requires stats'.Keys == updated.Keys
    requires forall id :: id in updated ==>
               stats'[id] == if id != a && id != b && AmongFirst(teams, |teams|, id)
                             then updated[id].(consecutiveMatches := 0) else updated[id]
    ensures EmitEffect(teams, stats, stats', a, b)
  {
    forall k | 0 <= k < |teams| ensures AmongFirst(teams, |teams|, teams[k].teamId) {}
  }

  /** A match may be emitted only for a pair that has not been played. */
  lemma PlayableIsUnplayed(group: Group, teams: seq<Team>, stats: Stats, ordered: seq<MatchModel>,
                           order: seq<(int, int)>, played: set<(int, int)>, resets: set<nat>, lastReset: nat,
                           i0: int, j0: int)
    requires ScheduleInv(group, teams, stats, ordered, order, played, resets, lastReset)
    requires 0 <= i0 < j0 < |teams|
    requires CanTeamsPlay(stats[teams[i0].teamId], stats[teams[j0].teamId])
    ensures (i0, j0) !in played && (j0, i0) !in played
    ensures teams[j0].teamId !in stats[teams[i0].teamId].opponents
    ensures teams[i0].teamId !in stats[teams[j0].teamId].opponents
  {
  }

  lemma EmitKeepsOpponents(teams: seq<Team>, stats: Stats, stats': Stats, played: set<(int, int)>, i0: int, j0: int)
    requires DistinctIds(teams) && StatsShape(teams, stats) && OpponentsAgree(teams, stats, played)
    requires 0 <= i0 < j0 < |teams|
    requires EmitEffect(teams, stats, stats', teams[i0].teamId, teams[j0].teamId)
    ensures StatsShape(teams, stats')
    ensures OpponentsAgree(teams, stats', played + {(i0, j0)})
  {
    var played' := played + {(i0, j0)};
    forall a, b | 0 <= a < |teams| && 0 <= b < |teams|
      ensures teams[b].teamId in stats'[teams[a].teamId].opponents <==> (a, b) in played' || (b, a) in played'
    {
      IdIndex(teams, a, i0);
      IdIndex(teams, a, j0);
      IdIndex(teams, b, i0);
      IdIndex(teams, b, j0);
    }
  }

  lemma AppearancesAppend(ms: seq<MatchModel>, m: MatchModel, id: int)
    ensures Appearances(ms + [m], id) == Appearances(ms, id) + (if Involves(m, id) then 1 else 0)
  {
    assert (ms + [m])[..|ms|] == ms;
  }

  lemma StreakAppend(ms: seq<MatchModel>, m: MatchModel, id: int, from: nat)
    requires from <= |ms|
    ensures Streak(ms + [m], id, from) == if Involves(m, id) then Streak(ms, id, from) + 1 else 0
  {
    assert (ms + [m])[..|ms|] == ms;
  }

  lemma EmitKeepsCounters(group: Group, teams: seq<Team>, stats: Stats, stats': Stats, ordered: seq<MatchModel>,
                          order: seq<(int, int)>, played: set<(int, int)>, resets: set<nat>, lastReset: nat,
                          i0: int, j0: int)
    requires ScheduleInv(group, teams, stats, ordered, order, played, resets, lastReset)
    requires 0 <= i0 < j0 < |teams|
    requires CanTeamsPlay(stats[teams[i0].teamId], stats[teams[j0].teamId])
    requires EmitEffect(teams, stats, stats', teams[i0].teamId, teams[j0].teamId)
    ensures StatsShape(teams, stats')
    ensures CountsAgree(teams, stats', ordered + [NewMatch(group, teams[i0], teams[j0])])
    ensures StreaksAgree(teams, stats', ordered + [NewMatch(group, teams[i0], teams[j0])], lastReset)
  {
    var m := NewMatch(group, teams[i0], teams[j0]);
    PlayableIsUnplayed(group, teams, stats, ordered, order, played, resets, lastReset, i0, j0);
    forall a | 0 <= a < |teams|
      ensures stats'[teams[a].teamId].totalMatches == |stats'[teams[a].teamId].opponents|
      ensures stats'[teams[a].teamId].totalMatches == Appearances(ordered + [m], teams[a].teamId)
      ensures stats'[teams[a].teamId].consecutiveMatches == Streak(ordered + [m], teams[a].teamId, lastReset)
    {
      IdIndex(teams, a, i0);
      IdIndex(teams, a, j0);
      AppearancesAppend(ordered, m, teams[a].teamId);
      StreakAppend(ordered, m, teams[a].teamId, lastReset);
    }
  }

  /** Two shells of pairs `i < j` name the same teams only if they are the same shell. */
  lemma ShellPairing(group: Group, teams: seq<Team>, i1: int, j1: int, i2: int, j2: int)
    requires DistinctIds(teams)
    requires 0 <= i1 < j1 < |teams| && 0 <= i2 < j2 < |teams|
    ensures SamePairing(NewMatch(group, teams[i1], teams[j1]), NewMatch(group, teams[i2], teams[j2])) ==>
              i1 == i2 && j1 == j2
  {
    IdIndex(teams, i1, i2);
    IdIndex(teams, j1, j2);
    IdIndex(teams, i1, j2);
    IdIndex(teams, j1, i2);
  }

  lemma EmitKeepsNoRepeat(group: Group, teams: seq<Team>, stats: Stats, ordered: seq<MatchModel>,
                          order: seq<(int, int)>, played: set<(int, int)>, resets: set<nat>, lastReset: nat,
                          i0: int, j0: int)
    requires ScheduleInv(group, teams, stats, ordered, order, played, resets, lastReset)
    requires 0 <= i0 < j0 < |teams|
    requires CanTeamsPlay(stats[teams[i0].teamId], stats[teams[j0].teamId])
    ensures NoRepeatedPairing(ordered + [NewMatch(group, teams[i0], teams[j0])])
  {
    var m := NewMatch(group, teams[i0], teams[j0]);
    var ms := ordered + [m];
    PlayableIsUnplayed(group, teams, stats, ordered, order, played, resets, lastReset, i0, j0);
    forall a, b | 0 <= a < b < |ms| ensures !SamePairing(ms[a], ms[b]) {
      if b == |ordered| {
        assert order[a] in played;
        ShellPairing(group, teams, order[a].0, order[a].1, i0, j0);
      }
    }
  }

  /** A team in the last two matches since `from` has a streak of at least 2. */
  lemma StreakOfTwo(ms: seq<MatchModel>, id: int, from: nat)
    requires from + 2 <= |ms|
    ensures Involves(ms[|ms| - 2], id) && Involves(ms[|ms| - 1], id) ==> Streak(ms, id, from) >= 2
  {
    var pre := ms[..|ms| - 1];
    assert pre[|pre| - 1] == ms[|ms| - 2];
  }

  /** Appending a match of two teams whose streaks are below 2 keeps the fatigue rule. */
  lemma AppendKeepsNoThree(ordered: seq<MatchModel>, m: MatchModel, resets: set<nat>, lastReset: nat, a: int, b: int)
    requires NoThreeInARow(ordered, resets)
    requires ResetLog(resets, lastReset, |ordered|)
    requires Streak(ordered, a, lastReset) < 2 && Streak(ordered, b, lastReset) < 2
    requires forall id :: Involves(m, id) ==> id == a || id == b
    ensures NoThreeInARow(ordered + [m], resets)
  {
    var ms := ordered + [m];
    var L := |ordered|;
    if L >= 2 && L - 1 !in resets && L !in resets {
      // no reset since the match at L - 2, so the two teams' streaks cover the last two matches
      assert lastReset <= L - 2;
      StreakOfTwo(ordered, a, lastReset);
      StreakOfTwo(ordered, b, lastReset);
    }
    forall k: nat, id | k + 2 < |ms| && k + 1 !in resets && k + 2 !in resets
      ensures !ThreeInARow(ms, k, id)
    {
      if k + 2 < L {
        assert ms[k] == ordered[k] && ms[k + 1] == ordered[k + 1] && ms[k + 2] == ordered[k + 2];
        assert !ThreeInARow(ordered, k, id);
      } else {
        assert ms[k] == ordered[L - 2] && ms[k + 1] == ordered[L - 1] && ms[k + 2] == m;
      }
    }
  }

  lemma OrderAppend(group: Group, teams: seq<Team>, ordered: seq<MatchModel>, order: seq<(int, int)>, i0: int, j0: int)
    requires OrderAgrees(group, teams, ordered, order)
    requires 0 <= i0 < j0 < |teams|
    ensures OrderAgrees(group, teams, ordered + [NewMatch(group, teams[i0], teams[j0])], order + [(i0, j0)])
  {
    var ms := ordered + [NewMatch(group, teams[i0], teams[j0])];
    var os := order + [(i0, j0)];
    forall k | 0 <= k < |os|
      ensures 0 <= os[k].0 < os[k].1 < |teams| && ms[k] == NewMatch(group, teams[os[k].0], teams[os[k].1])
    {
      if k < |order| {
        assert os[k] == order[k] && ms[k] == ordered[k];
      }
    }
  }

  lemma EmitInv(group: Group, teams: seq<Team>, stats: Stats, stats': Stats, ordered: seq<MatchModel>,
                order: seq<(int, int)>, played: set<(int, int)>, resets: set<nat>, lastReset: nat,
                i0: int, j0: int)
    requires ScheduleInv(group, teams, stats, ordered, order, played, resets, lastReset)
    requires 0 <= i0 < j0 < |teams|
    requires CanTeamsPlay(stats[teams[i0].teamId], stats[teams[j0].teamId])
    requires EmitEffect(teams, stats, stats', teams[i0].teamId, teams[j0].teamId)
    ensures ScheduleInv(group, teams, stats', ordered + [NewMatch(group, teams[i0], teams[j0])],
                        order + [(i0, j0)], played + {(i0, j0)}, resets, lastReset)
  {
    PlayableIsUnplayed(group, teams, stats, ordered, order, played, resets, lastReset, i0, j0);
    OrderAppend(group, teams, ordered, order, i0, j0);
    assert |played + {(i0, j0)}| == |played| + 1;
    EmitKeepsOpponents(teams, stats, stats', played, i0, j0);
    EmitKeepsCounters(group, teams, stats, stats', ordered, order, played, resets, lastReset, i0, j0);
    EmitKeepsNoRepeat(group, teams, stats, ordered, order, played, resets, lastReset, i0, j0);
    AppendKeepsNoThree(ordered, NewMatch(group, teams[i0], teams[j0]), resets, lastReset,
                       teams[i0].teamId, teams[j0].teamId);
  }

  lemma ResetInv(group: Group, teams: seq<Team>, stats: Stats, stats': Stats, ordered: seq<MatchModel>,
                 order: seq<(int, int)>, played: set<(int, int)>, resets: set<nat>, lastReset: nat)
    requires ScheduleInv(group, teams, stats, ordered, order, played, resets, lastReset)
    requires |ordered| < |teams| * (|teams| - 1) / 2
    requires forall i, j :: 0 <= i < j < |teams| ==> !CanTeamsPlay(stats[teams[i].teamId], stats[teams[j].teamId])
    requires stats'.Keys == stats.Keys
    requires forall id :: id in stats ==> stats'[id] == stats[id].(consecutiveMatches := 0)
    ensures ScheduleInv(group, teams, stats', ordered, order, played, resets + {|ordered|}, |ordered|)
    ensures AllZero(teams, stats')
  {
  }

  /** A run of at least 2 since `from` covers the last two matches. */
  lemma StreakTwo(ms: seq<MatchModel>, id: int, from: nat)
    ensures Streak(ms, id, from) >= 2 ==>
              from + 2 <= |ms| && Involves(ms[|ms| - 1], id) && Involves(ms[|ms| - 2], id)
  {
    if |ms| > from && Involves(ms[|ms| - 1], id) {
      var pre := ms[..|ms| - 1];
      assert Streak(ms, id, from) == 1 + Streak(pre, id, from);
      if |pre| > from && Involves(pre[|pre| - 1], id) {
        assert pre[|pre| - 1] == ms[|ms| - 2];
      } else {
        assert Streak(pre, id, from) == 0;
      }
    }
  }

  /** A played pair has its shell in the list. */
  lemma PlayedHasShell(group: Group, teams: seq<Team>, ordered: seq<MatchModel>,
                       order: seq<(int, int)>, played: set<(int, int)>, i: int, j: int)
    requires OrderAgrees(group, teams, ordered, order)
    requires forall p :: p in played <==> p in order
    requires 0 <= i < j < |teams|
    ensures (i, j) in played ==> NewMatch(group, teams[i], teams[j]) in ordered
  {
    if (i, j) in played {
      var k :| 0 <= k < |order| && order[k] == (i, j);
      assert ordered[k] == NewMatch(group, teams[i], teams[j]);
    }
  }

  /** In an empty round, each unplayed pair has a team that played the last two matches
      since the last reset. */
  lemma BlockedPair(group: Group, teams: seq<Team>, stats: Stats, ordered: seq<MatchModel>,
                    order: seq<(int, int)>, played: set<(int, int)>, resets: set<nat>, lastReset: nat,
                    i: int, j: int)
    requires ScheduleInv(group, teams, stats, ordered, order, played, resets, lastReset)
    requires 0 <= i < j < |teams| && (i, j) !in played
    requires !CanTeamsPlay(stats[teams[i].teamId], stats[teams[j].teamId])
    ensures lastReset + 2 <= |ordered|
    ensures Tired(ordered, |ordered|, teams[i].teamId) || Tired(ordered, |ordered|, teams[j].teamId)
  {
    AvailableIffFresh(group, teams, stats, ordered, order, played, resets, lastReset, i, j);
    StreakTwo(ordered, teams[i].teamId, lastReset);
    StreakTwo(ordered, teams[j].teamId, lastReset);
  }

  /** In an empty round a reset recorded now is forced: at least two matches follow
      the last reset, and every pair without a match has a team that played the last two. */
  lemma EmptyRoundBlocked(group: Group, teams: seq<Team>, stats: Stats, ordered: seq<MatchModel>,
                          order: seq<(int, int)>, played: set<(int, int)>, resets: set<nat>, lastReset: nat)
    requires ScheduleInv(group, teams, stats, ordered, order, played, resets, lastReset)
    requires |ordered| < |teams| * (|teams| - 1) / 2
    requires forall i, j :: 0 <= i < j < |teams| ==> !CanTeamsPlay(stats[teams[i].teamId], stats[teams[j].teamId])
    ensures 2 <= |ordered| && |ordered| - 1 !in resets && Blocked(group, teams, ordered, |ordered|)
  {
    EmptyRoundSpan(group, teams, stats, ordered, order, played, resets, lastReset);
    EmptyRoundTired(group, teams, stats, ordered, order, played, resets, lastReset);
  }

  /** In an empty round at least two matches follow the last reset, so the round
      before was not a reset. */
  lemma EmptyRoundSpan(group: Group, teams: seq<Team>, stats: Stats, ordered: seq<MatchModel>,
                       order: seq<(int, int)>, played: set<(int, int)>, resets: set<nat>, lastReset: nat)
    requires ScheduleInv(group, teams, stats, ordered, order, played, resets, lastReset)
    requires |ordered| < |teams| * (|teams| - 1) / 2
    requires forall i, j :: 0 <= i < j < |teams| ==> !CanTeamsPlay(stats[teams[i].teamId], stats[teams[j].teamId])
    ensures 2 <= |ordered| && |ordered| - 1 !in resets
  {
    var i0, j0 := UnplayedPair(group, teams, stats, ordered, order, played, resets, lastReset);
    BlockedPair(group, teams, stats, ordered, order, played, resets, lastReset, i0, j0);
    assert forall c :: c in resets ==> c <= lastReset;
  }

  /** In an empty round every pair without a match has a team that played the last two. */
  lemma EmptyRoundTired(group: Group, teams: seq<Team>, stats: Stats, ordered: seq<MatchModel>,
                        order: seq<(int, int)>, played: set<(int, int)>, resets: set<nat>, lastReset: nat)
    requires ScheduleInv(group, teams, stats, ordered, order, played, resets, lastReset)
    requires forall i, j :: 0 <= i < j < |teams| ==> !CanTeamsPlay(stats[teams[i].teamId], stats[teams[j].teamId])
    requires 2 <= |ordered|
    ensures Blocked(group, teams, ordered, |ordered|)
  {
    assert ordered[..|ordered|] == ordered;
    forall i, j | 0 <= i < j < |teams| && NewMatch(group, teams[i], teams[j]) !in ordered
      ensures Tired(ordered, |ordered|, teams[i].teamId) || Tired(ordered, |ordered|, teams[j].teamId)
    {
      PlayedHasShell(group, teams, ordered, order, played, i, j);
      BlockedPair(group, teams, stats, ordered, order, played, resets, lastReset, i, j);
    }
  }

  /** With teams 1 to 4, the order 1-2, 1-3, 1-4 with a reset recorded after the second
      match has no team three in a row without a reset, but that reset was not forced:
      teams 2 and 3 could still play, so `ResetsForced` rejects it. */
  lemma UnforcedResetRejected()
    ensures var g := Group(1, 1);
            var teams := [Team(1), Team(2), Team(3), Team(4)];
            var ms := [NewMatch(g, teams[0], teams[1]), NewMatch(g, teams[0], teams[2]), NewMatch(g, teams[0], teams[3])];
            NoThreeInARow(ms, {2}) && !ResetsForced(g, teams, ms, {2})
  {
    var g := Group(1, 1);
    var teams := [Team(1), Team(2), Team(3), Team(4)];
    var ms := [NewMatch(g, teams[0], teams[1]), NewMatch(g, teams[0], teams[2]), NewMatch(g, teams[0], teams[3])];
    assert NewMatch(g, teams[1], teams[2]) !in ms[..2] by {
      assert ms[..2] == [ms[0], ms[1]];
    }
    assert !Tired(ms, 2, 2) && !Tired(ms, 2, 3);
    assert !ForcedReset(g, teams, ms, {2}, 2);
  }

  /** A reset recorded at the end of the list, where the last two matches came after
      the previous reset and every unplayed pair has a tired team, is forced, and the
      earlier resets stay forced. */
  lemma ResetsForcedAdd(group: Group, teams: seq<Team>, ms: seq<MatchModel>, resets: set<nat>)
    requires ResetsForced(group, teams, ms, resets)
    requires 2 <= |ms| && |ms| - 1 !in resets && Blocked(group, teams, ms, |ms|)
    ensures ResetsForced(group, teams, ms, resets + {|ms|})
  {
    var c0 := |ms|;
    assert ForcedReset(group, teams, ms, resets + {c0}, c0);
    forall c | c in resets + {c0} ensures ForcedReset(group, teams, ms, resets + {c0}, c) {
      if c != c0 {
        assert ForcedReset(group, teams, ms, resets, c);
      }
    }
  }

  /** Appending a match keeps every recorded reset forced. */
  lemma ResetsForcedAppend(group: Group, teams: seq<Team>, ordered: seq<MatchModel>, m: MatchModel, resets: set<nat>)
    requires ResetsForced(group, teams, ordered, resets)
    ensures ResetsForced(group, teams, ordered + [m], resets)
  {
    var ms := ordered + [m];
    forall c | c in resets ensures ForcedReset(group, teams, ms, resets, c) {
      assert ForcedReset(group, teams, ordered, resets, c);
      assert ms[..c] == ordered[..c];
      assert ms[c - 2] == ordered[c - 2] && ms[c - 1] == ordered[c - 1];
    }
  }

  /** While matches are missing, some pair `i < j` is unplayed. */
  lemma UnplayedPair(group: Group, teams: seq<Team>, stats: Stats, ordered: seq<MatchModel>,
                     order: seq<(int, int)>, played: set<(int, int)>, resets: set<nat>, lastReset: nat)
    returns (i: int, j: int)
    requires ScheduleInv(group, teams, stats, ordered, order, played, resets, lastReset)
    requires |ordered| < |teams| * (|teams| - 1) / 2
    ensures 0 <= i < j < |teams| && (i, j) !in played
  {
    PlayedArePairs(group, teams, ordered, order, played);
    SubsetSize(played, AllPairs(|teams|));
    AllPairsSize(|teams|);
    var p :| p in AllPairs(|teams|) - played;
    i, j := p.0, p.1;
  }

  lemma PlayedArePairs(group: Group, teams: seq<Team>, ordered: seq<MatchModel>,
                       order: seq<(int, int)>, played: set<(int, int)>)
    requires OrderAgrees(group, teams, ordered, order)
    requires forall p :: p in played <==> p in order
    ensures played <= AllPairs(|teams|)
  {
    forall p | p in played ensures p in AllPairs(|teams|) {
      var k :| 0 <= k < |order| && order[k] == p;
      assert p == (p.0, p.1);
    }
  }

  /** During generation a pair can play exactly when it has not been played and
      neither team has been in the last two matches since the last forced reset. */
  lemma AvailableIffFresh(group: Group, teams: seq<Team>, stats: Stats, ordered: seq<MatchModel>,
                          order: seq<(int, int)>, played: set<(int, int)>, resets: set<nat>, lastReset: nat,
                          i: int, j: int)
    requires ScheduleInv(group, teams, stats, ordered, order, played, resets, lastReset)
    requires 0 <= i < j < |teams|
    ensures CanTeamsPlay(stats[teams[i].teamId], stats[teams[j].teamId]) <==>
              (i, j) !in played &&
              Streak(ordered, teams[i].teamId, lastReset) < 2 && Streak(ordered, teams[j].teamId, lastReset) < 2
  {
    PlayedArePairs(group, teams, ordered, order, played);
    assert (j, i) !in AllPairs(|teams|);
  }

  /** After a forced reset every unplayed pair is available, so an empty round
      is followed by a match. */
  lemma ResetUnblocks(group: Group, teams: seq<Team>, stats: Stats, ordered: seq<MatchModel>,
                      order: seq<(int, int)>, played: set<(int, int)>, resets: set<nat>, lastReset: nat,
                      i: int, j: int)
    requires ScheduleInv(group, teams, stats, ordered, order, played, resets, lastReset)
    requires 0 <= i < j < |teams| && (i, j) !in played
    ensures AllZero(teams, stats) ==> CanTeamsPlay(stats[teams[i].teamId], stats[teams[j].teamId])
  {
    AvailableIffFresh(group, teams, stats, ordered, order, played, resets, lastReset, i, j);
  }

  /** When the loop stops, every pair `i < j` has its match. */
  lemma CompleteSchedule(group: Group, teams: seq<Team>, stats: Stats, ordered: seq<MatchModel>,
                         order: seq<(int, int)>, played: set<(int, int)>, resets: set<nat>, lastReset: nat)
    requires ScheduleInv(group, teams, stats, ordered, order, played, resets, lastReset)
    requires |ordered| == |teams| * (|teams| - 1) / 2
    ensures forall i, j :: 0 <= i < j < |teams| ==> NewMatch(group, teams[i], teams[j]) in ordered
    ensures forall m :: m in ordered ==> exists i, j :: 0 <= i < j < |teams| && m == NewMatch(group, teams[i], teams[j])
  {
    PlayedArePairs(group, teams, ordered, order, played);
    SubsetSize(played, AllPairs(|teams|));
    AllPairsSize(|teams|);
    assert played == AllPairs(|teams|);
    forall i, j | 0 <= i < j < |teams| ensures NewMatch(group, teams[i], teams[j]) in ordered {
      assert (i, j) in AllPairs(|teams|);
      var k :| 0 <= k < |order| && order[k] == (i, j);
      assert ordered[k] == NewMatch(group, teams[i], teams[j]);
    }
    forall m | m in ordered ensures exists i, j :: 0 <= i < j < |teams| && m == NewMatch(group, teams[i], teams[j]) {
      var k :| 0 <= k < |ordered| && ordered[k] == m;
      assert m == NewMatch(group, teams[order[k].0], teams[order[k].1]);
    }
  }

  /* ---------- Lemmas about the shuffle ---------- */

  lemma DuplicateCount<T>(s: seq<T>, a: int, b: int)
    requires 0 <= a < b < |s|
    ensures s[a] == s[b] ==> multiset(s)[s[a]] >= 2
  {
    assert s == s[..b] + [s[b]] + s[b + 1..];
    assert s[a] in s[..b];
  }

  lemma {:induction false} DistinctCount<T>(s: seq<T>, x: T)
    requires forall a, b :: 0 <= a < b < |s| ==> s[a] != s[b]
    ensures multiset(s)[x] <= 1
  {
    if s != [] {
      var s' := s[..|s| - 1];
      DistinctCount(s', x);
      assert s == s' + [s[|s| - 1]];
      assert s[|s| - 1] !in s';
    }
  }

  /** Shuffling keeps every property of the generated list that does not depend on order. */
  lemma PermutationKeepsPairings(group: Group, teams: seq<Team>, ordered: seq<MatchModel>, shuffled: seq<MatchModel>)
    requires DistinctIds(teams)
    requires forall m :: m in ordered ==> exists i, j :: 0 <= i < j < |teams| && m == NewMatch(group, teams[i], teams[j])
    requires NoRepeatedPairing(ordered)
    requires multiset(shuffled) == multiset(ordered)
    ensures forall m :: m in shuffled <==> m in ordered
    ensures NoRepeatedPairing(shuffled)
  {
    forall m ensures m in shuffled <==> m in ordered {
      assert m in shuffled <==> m in multiset(shuffled);
      assert m in ordered <==> m in multiset(ordered);
    }
    forall x ensures multiset(shuffled)[x] <= 1 {
      DistinctCount(ordered, x);
    }
    forall a, b | 0 <= a < b < |shuffled| ensures !SamePairing(shuffled[a], shuffled[b]) {
      DuplicateCount(shuffled, a, b);
      assert shuffled[a] in multiset(shuffled) && shuffled[b] in multiset(shuffled);
      assert shuffled[a] in ordered && shuffled[b] in ordered;
      var i1, j1 :| 0 <= i1 < j1 < |teams| && shuffled[a] == NewMatch(group, teams[i1], teams[j1]);
      var i2, j2 :| 0 <= i2 < j2 < |teams| && shuffled[b] == NewMatch(group, teams[i2], teams[j2]);
      ShellPairing(group, teams, i1, j1, i2, j2);
    }
  }
}
