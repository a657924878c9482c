/** Records shared by the match generator and the match controller. Optional
    (`?:`) fields of the TypeScript interfaces are `Option`s; JSON `null` and
    `undefined` are both `None`. */
module Models {

  datatype Option<+T> = None | Some(value: T)

  /* MatchStatus, with the numbering of the frontend enum. The backend stores
     and compares these as plain numbers, so a status is an `int`. */
  const Pending: int := 0
  const InProgress: int := 1
  const Cancelled: int := 2
  const Team1Wins: int := 3
  const Team2Wins: int := 4
  const Team1Retires: int := 5
  const Team2Retires: int := 6
  const Team1Absent: int := 7
  const Team2Absent: int := 8

  /** A team; only its id takes part in the modelled logic. */
  datatype Team = Team(teamId: int)

  /** A group of teams, in one format. */
  datatype Group = Group(groupId: int, formatId: int)

  /** The backend match record, field for field. */
  datatype MatchModel = MatchModel(
    matchId: Option<string>,
    parentMatchId: Option<string>,
    formatId: int,
    groupId: Option<int>,
    team1Id: Option<int>,
    team2Id: Option<int>,
    team1FinalScore: Option<int>,
    team2FinalScore: Option<int>,
    umpireId: Option<string>,
    courtNum: Option<string>,
    winnerId: Option<int>,
    result: Option<int>,
    extendData: Option<string>)

  /** One game of a match, as the controller stores it. */
  datatype Game = Game(matchId: string, team1Score: Option<int>, team2Score: Option<int>)
}
