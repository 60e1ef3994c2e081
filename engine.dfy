/**
 * The three scoring routes of matches.js as functions from the loaded match
 * to either the state that is saved (with the events broadcast after the
 * save) or the 400 error that leaves the stored match untouched:
 * start (59-107), end-innings (110-214) and ball (217-487).
 */
module Engine {
  import opened Wrappers
  import opened Text
  import opened Records
  import opened Scoring
  import opened Stats
  import Commentary

  /** Team 1 bats first only when it won the toss and chose to bat; otherwise team 2 does. */
  function FirstBatting(m: MatchState): string {
    if m.tossWinner == m.team1 && m.tossDecision == "bat" then m.team1 else m.team2
  }

  function FirstBowling(m: MatchState): string {
    if m.tossWinner == m.team1 && m.tossDecision == "bat" then m.team2 else m.team1
  }

  /** POST /:matchId/start */
  function Start(m: MatchState): Result<Step, Error> {
    if m.tossWinner == "" || m.tossDecision == "" then Failure(TossNotSet)
    else
      Success(Step(
        m.(status := Live,
           isLive := true,
           innings := m.innings + [NewInnings(1, FirstBatting(m), FirstBowling(m))],
           currentInnings := 1),
        [MatchStarted]))
  }

  /** Whether innings[currentInnings - 1] exists. */
  predicate HasCurrentInnings(m: MatchState) {
    1 <= m.currentInnings <= |m.innings|
  }

  /** The result once the second innings is over: more runs wins, equal runs tie. */
  function Decide(first: Innings, second: Innings): MatchResult {
    if second.runs > first.runs then
      MatchResult(second.battingTeam, IntToString(10 - second.wickets) + " wickets")
    else if first.runs > second.runs then
      MatchResult(first.battingTeam, IntToString(first.runs - second.runs) + " runs")
    else MatchResult("tie", "Match tied")
  }

  /**
   * Closing the current innings, shared by both routes: mark it completed,
   * then either open innings 2 with the sides swapped or complete the match
   * with the result decided from innings[0] and innings[1].
   */
  function FinishInnings(m: MatchState): (r: MatchState)
    requires HasCurrentInnings(m)
    ensures m.currentInnings == 1 ==> |r.innings| == |m.innings| + 1
    ensures m.currentInnings != 1 ==> |r.innings| == |m.innings| && |r.innings| >= 2
  {
    var k := m.currentInnings - 1;
    var closed := m.innings[k].(isCompleted := true);
    var m1 := m.(innings := m.innings[k := closed]);
    if m.currentInnings == 1 then
      m1.(currentInnings := 2,
          innings := m1.innings + [NewInnings(2, closed.bowlingTeam, closed.battingTeam)])
    else
      m1.(status := Completed,
          isLive := false,
          result := Some(Decide(m1.innings[0], m1.innings[1])))
  }

  /** POST /:matchId/end-innings */
  function EndInnings(m: MatchState): Result<Step, Error> {
    if m.status != Live then Failure(NotLive)
    else if !HasCurrentInnings(m) then Failure(NoCurrentInnings)
    else
      var r := FinishInnings(m);
      if m.currentInnings == 1 then
        Success(Step(r, [InningsChanged(2, r.innings[1].battingTeam)]))
      else
        Success(Step(r, [MatchEnded(r.result.value.winner, r.result.value.winBy)]))
  }

  /** The innings with the next over opened if needed. */
  function Opened(inn: Innings, d: Delivery): (r: Innings)
    ensures |r.overs| > 0
  {
    OpenOverIfNeeded(inn, d.bowler)
  }

  /** The ball record the route builds for `d`, numbered after the balls already in the over. */
  function BallFor(inn: Innings, d: Delivery): Ball {
    MakeBall(|Last(Opened(inn, d).overs).balls| + 1, d)
  }

  /** The innings after the ball: over opened, ball scored, maiden marked. */
  function Scored(inn: Innings, d: Delivery): (r: Innings)
    ensures |r.overs| > 0
  {
    MarkMaiden(ScoreBall(Opened(inn, d), d, BallFor(inn, d)))
  }

  /** The bowling rows after the ball: charged, then credited an over when the latest over is complete. */
  function BowlersAfter(rows: seq<BowlerStat>, d: Delivery, scored: Innings): seq<BowlerStat>
    requires |scored.overs| > 0
  {
    var charged := UpsertBowler(rows, d, ExtrasOf(d));
    var k := Slot(rows, BowlerName, d.bowler);
    var o := Last(scored.overs);
    if OverComplete(o) then charged[k := CreditOver(charged[k], o.runsInOver == 0)] else charged
  }

  /** The commentary entry for the ball just scored. */
  function EntryFor(scored: Innings, d: Delivery): CommentaryEntry
    requires |scored.overs| > 0
  {
    Commentary.Entry(scored.currentOver, |Last(scored.overs).balls|, d)
  }

  /** The match after the ball has been recorded, before the completion check. */
  function Recorded(m: MatchState, d: Delivery): (r: MatchState)
    requires HasCurrentInnings(m)
    ensures HasCurrentInnings(r) && r.currentInnings == m.currentInnings
    ensures |r.innings| == |m.innings| && |r.commentary| > 0
  {
    RecordedWith(m, d, Scored(m.innings[m.currentInnings - 1], d))
  }

  /** The match once `inn`, the current innings with the ball scored in it, has been credited and announced. */
  function RecordedWith(m: MatchState, d: Delivery, inn: Innings): (r: MatchState)
    requires HasCurrentInnings(m) && |inn.overs| > 0
    ensures HasCurrentInnings(r) && r.currentInnings == m.currentInnings
    ensures |r.innings| == |m.innings| && |r.commentary| > 0
  {
    Assemble(m, inn, UpsertBatsman(m.batsmanStats, d), BowlersAfter(m.bowlerStats, d, inn), EntryFor(inn, d))
  }

  /** Recording a ball is scoring it in the current innings, then crediting and announcing it. */
  lemma RecordedUnfolds(m: MatchState, d: Delivery)
    requires HasCurrentInnings(m)
    ensures RecordedWith(m, d, Scored(m.innings[m.currentInnings - 1], d)) == Recorded(m, d)
  {
  }

  /** Which parts of the match recording a scored innings replaces, and with what. */
  lemma RecordedWithParts(m: MatchState, d: Delivery, inn: Innings)
    requires HasCurrentInnings(m) && |inn.overs| > 0
    ensures var r := RecordedWith(m, d, inn);
      && r.innings == m.innings[m.currentInnings - 1 := inn]
      && r.batsmanStats == UpsertBatsman(m.batsmanStats, d)
      && r.bowlerStats == BowlersAfter(m.bowlerStats, d, inn)
      && r.commentary == [EntryFor(inn, d)] + m.commentary
      && r.(innings := m.innings, batsmanStats := m.batsmanStats, bowlerStats := m.bowlerStats,
            commentary := m.commentary) == m
  {
  }

  /** The match with the current innings, both stat tables and the newest commentary entry replaced. */
  function Assemble(m: MatchState, inn: Innings, bats: seq<BatsmanStat>, bowls: seq<BowlerStat>,
                    entry: CommentaryEntry): (r: MatchState)
    requires HasCurrentInnings(m)
    ensures HasCurrentInnings(r) && r.currentInnings == m.currentInnings
    ensures |r.innings| == |m.innings| && |r.commentary| > 0
  {
    m.(innings := m.innings[m.currentInnings - 1 := inn],
       batsmanStats := bats, bowlerStats := bowls, commentary := [entry] + m.commentary)
  }

  /**
   * The completion check that ends the ball route, on the match `r` in which
   * the ball has been recorded: an innings that is over is closed; closing
   * the second one writes into the result object, which must exist.
   */
  function Settle(r: MatchState, ball: Ball): Result<BallStep, Error>
    requires HasCurrentInnings(r) && |r.commentary| > 0
  {
    var k := r.currentInnings - 1;
    var update := BallUpdate(ball, r.commentary[0].text);
    if !InningsOver(r.innings[k], r.totalOvers) then
      Success(BallStep(r, ball, [update]))
    else if r.currentInnings == 1 then
      Success(BallStep(FinishInnings(r), ball, [update]))
    else if r.result.None? then
      // `match.result.winner = ...` throws before the save: the route answers 400
      Failure(ResultMissing)
    else
      var done := FinishInnings(r);
      Success(BallStep(done, ball,
                       [MatchEnded(done.result.value.winner, done.result.value.winBy), update]))
  }

  /** POST /:matchId/ball */
  function AddBall(m: MatchState, d: Delivery): Result<BallStep, Error> {
    if m.status != Live then Failure(NotLive)
    else if |m.innings| == 0 then Failure(NoInnings)
    else if !HasCurrentInnings(m) then Failure(NoCurrentInnings)
    else Settle(Recorded(m, d), BallFor(m.innings[m.currentInnings - 1], d))
  }
}
