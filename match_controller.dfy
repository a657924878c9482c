/** The decision logic of the match controller: claiming a match as umpire,
    recording a game with a declared result, and adding a game. The stored
    match record and its list of games are the state; HTTP replies are status codes. */
module MatchController {
  import opened Models

  /** A JSON number field of a request body: left out, `null`, or a number. */
  datatype NumberField = Absent | Null | Num(n: int)

  /** The body of a score update: both scores and the declared result. */
  datatype ScoreRequest = ScoreRequest(team1Score: NumberField, team2Score: NumberField, result: Option<int>)

  /** The body of an add-game request. */
  datatype GameRequest = GameRequest(team1Score: NumberField, team2Score: NumberField)

  /** JavaScript truthiness of an optional string. */
  predicate Truthy(s: Option<string>)
  {
    s.Some? && s.value != ""
  }

  /** JavaScript falsiness of an optional number: missing, `null` or 0. */
  predicate FalsyNumber(x: Option<int>)
  {
    x.None? || x.value == 0
  }

  /** The value a present request field is stored with. */
  function Stored(f: NumberField): Option<int>
  {
    if f.Num? then Some(f.n) else None
  }

  /** `score || 0`. */
  function OrZero(x: Option<int>): int
  {
    if x.Some? then x.value else 0
  }

  /** Reference sums of each team's scores over the games. */
  function Team1Sum(games: seq<Game>): int
  {
    if games == [] then 0 else Team1Sum(games[..|games| - 1]) + OrZero(games[|games| - 1].team1Score)
  }

  function Team2Sum(games: seq<Game>): int
  {
    if games == [] then 0 else Team2Sum(games[..|games| - 1]) + OrZero(games[|games| - 1].team2Score)
  }

  lemma {:induction false} SumsOfConcat(a: seq<Game>, b: seq<Game>)
    ensures Team1Sum(a + b) == Team1Sum(a) + Team1Sum(b)
    ensures Team2Sum(a + b) == Team2Sum(a) + Team2Sum(b)
  {
    if b != [] {
      var b' := b[..|b| - 1];
      SumsOfConcat(a, b');
      assert (a + b)[..|a + b| - 1] == a + b';
    } else {
      assert a + b == a;
    }
  }

  /** The `reduce` of the score update: a left fold over the games, adding each
      game's scores (a missing score counts 0) to the accumulator. From any
      accumulator it adds each team's reference sum to it. */
  function FoldTotals(games: seq<Game>, acc: (int, int)): (r: (int, int))
    ensures r == (acc.0 + Team1Sum(games), acc.1 + Team2Sum(games))
  {
    if games == [] then acc
    else
      assert games == [games[0]] + games[1..];
      SumsOfConcat([games[0]], games[1..]);
      assert [games[0]][..0] == [];
      FoldTotals(games[1..], (acc.0 + OrZero(games[0].team1Score), acc.1 + OrZero(games[0].team2Score)))
  }

  /** The totals over all games, as the controller computes them. */
  function Totals(games: seq<Game>): (t: (int, int))
    ensures t == (Team1Sum(games), Team2Sum(games))
  {
    FoldTotals(games, (0, 0))
  }

  /** The declared result disagrees with the totals: a team declared winner
      does not have strictly more points over all games. Any result other than
      a win is never contradicted. */
  predicate Contradicts(result: int, totals: (int, int)): (r: bool)
    ensures !r <==> (result == Team1Wins ==> totals.0 > totals.1) &&
                    (result == Team2Wins ==> totals.1 > totals.0)
  {
    (result == Team1Wins && totals.0 <= totals.1) ||
    (result == Team2Wins && totals.1 <= totals.0)
  }

  /** The winner recorded with a result. */
  function WinnerFor(result: int, m: MatchModel): (w: Option<int>)
    ensures result == Team1Wins ==> w == m.team1Id
    ensures result == Team2Wins ==> w == m.team2Id
    ensures result != Team1Wins && result != Team2Wins ==> w == None
  {
    if result == Team1Wins then m.team1Id
    else if result == Team2Wins then m.team2Id
    else None
  }

  /** A decided match names the winner the result says. */
  predicate WinnerAgrees(m: MatchModel)
  {
    (m.result == Some(Team1Wins) ==> m.winnerId == m.team1Id) &&
    (m.result == Some(Team2Wins) ==> m.winnerId == m.team2Id)
  }

  /** An accepted result, recorded with its winner, leaves the match consistent,
      and a declared win is backed by strictly more points. */
  lemma AcceptedResultAgrees(m: MatchModel, result: int, games: seq<Game>)
    requires !Contradicts(result, Totals(games))
    ensures WinnerAgrees(m.(result := Some(result), winnerId := WinnerFor(result, m)))
    ensures result == Team1Wins ==> Team1Sum(games) > Team2Sum(games)
    ensures result == Team2Wins ==> Team2Sum(games) > Team1Sum(games)
  {
  }

  /** One stored match record and its games, as the controller sees them through the
      match service; `matchId` is the route parameter the games are keyed by. */
  class MatchStore {
    const matchId: string
    var record: MatchModel
    var games: seq<Game>

    constructor (matchId: string, record: MatchModel, games: seq<Game>)
      ensures this.matchId == matchId && this.record == record && this.games == games
    {
      this.matchId := matchId;
      this.record := record;
      this.games := games;
    }

    /** `assignUmpire`: a one-shot claim. Returns the HTTP status and, on 200,
        whether the claim took effect. No game is ever added. */
    method AssignUmpire(umpireId: Option<string>) returns (status: int, claimed: bool)
      modifies this
      ensures games == old(games)
      ensures !Truthy(umpireId) ==> status == 400 && !claimed && record == old(record)
      ensures Truthy(umpireId) && Truthy(old(record.umpireId)) ==>
                status == 200 && !claimed && record == old(record)
      ensures Truthy(umpireId) && !Truthy(old(record.umpireId)) ==>
                status == 200 && claimed &&
                record == old(record).(umpireId := umpireId, result := Some(InProgress))
      ensures Truthy(old(record.umpireId)) ==> record.umpireId == old(record.umpireId)
      ensures WinnerAgrees(old(record)) ==> WinnerAgrees(record)
    {
      if !Truthy(umpireId) {
        return 400, false;
      }
      if Truthy(record.umpireId) {
        return 200, false;
      }
      record := record.(umpireId := umpireId, result := Some(InProgress));
      return 200, true;
    }

    /** `updateMatchScore`: validate the body, check the caller is the umpire
        (403) and the match is in progress (400), store the new game, then
        accept the declared result only if the totals over all games back it. */
    method UpdateMatchScore(caller: string, req: ScoreRequest) returns (status: int)
      modifies this
      ensures var newGame := Game(matchId, Stored(req.team1Score), Stored(req.team2Score));
              if req.team1Score.Absent? || req.team2Score.Absent? || FalsyNumber(req.result) then
                status == 400 && record == old(record) && games == old(games)
              else if old(record.umpireId) != Some(caller) then
                status == 403 && record == old(record) && games == old(games)
              else if old(record.result) != Some(InProgress) then
                status == 400 && record == old(record) && games == old(games)
              else if Contradicts(req.result.value, Totals(old(games) + [newGame])) then
                status == 400 && record == old(record) && games == old(games) + [newGame]
              else
                status == 200 && games == old(games) + [newGame] &&
                record == old(record).(result := req.result,
                                     winnerId := WinnerFor(req.result.value, old(record)))
      ensures status == 200 ==> WinnerAgrees(record)
      ensures status == 200 && req.result == Some(Team1Wins) ==> Team1Sum(games) > Team2Sum(games)
      ensures status == 200 && req.result == Some(Team2Wins) ==> Team2Sum(games) > Team1Sum(games)
      ensures status != 200 && WinnerAgrees(old(record)) ==> WinnerAgrees(record)
      ensures record.umpireId == old(record.umpireId)
    {
      if req.team1Score.Absent? || req.team2Score.Absent? || FalsyNumber(req.result) {
        return 400;
      }
      if record.umpireId != Some(caller) {
        return 403;
      }
      if record.result != Some(InProgress) {
        return 400;
      }
      var game := Game(matchId, Stored(req.team1Score), Stored(req.team2Score));
      games := games + [game];
      var totals := Totals(games);
      var result := req.result.value;
      if Contradicts(result, totals) {
        return 400;
      }
      AcceptedResultAgrees(record, result, games);
      record := record.(result := req.result, winnerId := WinnerFor(result, record));
      return 200;
    }

    /** `addGame`: the same guards as the score update, then one game is
        appended; the match record is never changed. */
    method AddGame(caller: string, req: GameRequest) returns (status: int)
      modifies this
      ensures record == old(record)
      ensures var newGame := Game(matchId, Stored(req.team1Score), Stored(req.team2Score));
              if req.team1Score.Absent? || req.team2Score.Absent? then
                status == 400 && games == old(games)
              else if old(record.umpireId) != Some(caller) then
                status == 403 && games == old(games)
              else if old(record.result) != Some(InProgress) then
                status == 400 && games == old(games)
              else
                status == 201 && games == old(games) + [newGame]
    {
      if req.team1Score.Absent? || req.team2Score.Absent? {
        return 400;
      }
      if record.umpireId != Some(caller) {
        return 403;
      }
      if record.result != Some(InProgress) {
        return 400;
      }
      games := games + [Game(matchId, Stored(req.team1Score), Stored(req.team2Score))];
      return 201;
    }
  }
}
