/**
 * The match document the scoring routes load, mutate and save, and the
 * values that flow in and out of them. Every nested record (innings, over,
 * ball, stat row, commentary entry) is owned by exactly one match and is
 * never shared, so each is a value here.
 */
module Records {
  import opened Wrappers

  datatype Status = Scheduled | Live | Completed

  /**
   * The body of a ball submission, with every field present and typed:
   * runs an integer and each flag a boolean, so the route's `|| 0` and
   * `|| false` leave them unchanged.
   */
  datatype Delivery = Delivery(
    runs: int,
    isWicket: bool,
    isWide: bool,
    isNoBall: bool,
    isBye: bool,
    isLegBye: bool,
    striker: string,
    nonStriker: string,
    bowler: string,
    wicketType: Option<string>,
    fielder: Option<string>)

  /** One recorded delivery; never changed once appended to its over. */
  datatype Ball = Ball(
    ballNumber: int,
    runs: int,
    isWicket: bool,
    isWide: bool,
    isNoBall: bool,
    isBye: bool,
    isLegBye: bool,
    batsmanRuns: int,
    extras: int,
    striker: string,
    nonStriker: string,
    bowler: string,
    fielder: Option<string>,
    wicketType: Option<string>)

  datatype Over = Over(
    overNumber: int,
    bowler: string,
    balls: seq<Ball>,
    runsInOver: int,
    wicketsInOver: int,
    maidenOver: bool)

  datatype Extras = Extras(wides: int, noBalls: int, byes: int, legByes: int)

  datatype Innings = Innings(
    inningsNumber: int,
    battingTeam: string,
    bowlingTeam: string,
    runs: int,
    wickets: int,
    overs: seq<Over>,
    currentOver: int,
    currentBall: int,
    extras: Extras,
    striker: Option<string>,
    nonStriker: Option<string>,
    bowler: Option<string>,
    isCompleted: bool)

  datatype BatsmanStat = BatsmanStat(
    playerName: string,
    runs: int,
    ballsFaced: int,
    fours: int,
    sixes: int,
    isOut: bool,
    dismissalType: Option<string>,
    bowlerName: Option<string>,
    fielderName: Option<string>)

  datatype BowlerStat = BowlerStat(
    playerName: string,
    overs: int,
    maidens: int,
    runs: int,
    wickets: int,
    wides: int,
    noBalls: int)

  datatype CommentaryEntry = CommentaryEntry(ballNumber: string, text: string)

  datatype MatchResult = MatchResult(winner: string, winBy: string)

  /**
   * The fields of a match document the scoring routes read or write.
   * An empty tossWinner or tossDecision stands for one that was never set.
   * `commentary` is newest-first.
   */
  datatype MatchState = MatchState(
    team1: string,
    team2: string,
    totalOvers: int,
    tossWinner: string,
    tossDecision: string,
    status: Status,
    isLive: bool,
    currentInnings: int,
    innings: seq<Innings>,
    batsmanStats: seq<BatsmanStat>,
    bowlerStats: seq<BowlerStat>,
    commentary: seq<CommentaryEntry>,
    result: Option<MatchResult>)

  /** What the routes broadcast to connected viewers after a successful change. */
  datatype Event =
    | MatchStarted
    | InningsChanged(newInnings: int, battingTeam: string)
    | BallUpdate(ball: Ball, commentary: string)
    | MatchEnded(winner: string, winBy: string)

  /** The 400 answers of the three routes; none of them saves anything. */
  datatype Error =
    | TossNotSet        // start: toss winner or decision missing
    | NotLive           // end-innings, ball: status is not live
    | NoInnings         // ball: the innings list is empty
    | NoCurrentInnings  // end-innings, ball: innings[currentInnings - 1] does not exist
    | ResultMissing     // ball: completing the match writes into an absent result object

  /** A successful start or end-innings: the state to save and the events to emit. */
  datatype Step = Step(state: MatchState, events: seq<Event>)

  /** A successful ball: the state to save, the ball returned to the caller, and the events. */
  datatype BallStep = BallStep(state: MatchState, ball: Ball, events: seq<Event>)

  /** A freshly opened innings: all counters zero and no overs. */
  function NewInnings(number: int, batting: string, bowling: string): Innings {
    Innings(number, batting, bowling, 0, 0, [], 0, 0, Extras(0, 0, 0, 0), None, None, None, false)
  }
}
