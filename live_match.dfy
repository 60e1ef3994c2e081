/**
 * The match document as the route handlers hold it: loaded, mutated field
 * by field in the order of matches.js, then saved. Each method answers
 * like its route (an error leaves the document as loaded) and is proved to
 * leave exactly the state the corresponding Engine function describes, so
 * every property proved there holds of the saved document. `events`
 * records what the routes broadcast to connected viewers.
 */
module LiveMatch {
  import opened Wrappers
  import opened Text
  import opened Records
  import opened Scoring
  import opened Stats
  import opened Engine
  import opened Invariants
  import Commentary

  class Match {
    var team1: string
    var team2: string
    var totalOvers: int
    var tossWinner: string
    var tossDecision: string
    var status: Status
    var isLive: bool
    var currentInnings: int
    var innings: seq<Innings>
    var batsmanStats: seq<BatsmanStat>
    var bowlerStats: seq<BowlerStat>
    var commentary: seq<CommentaryEntry>
    var result: Option<MatchResult>

    /** The events broadcast so far, oldest first. */
    ghost var events: seq<Event>

    function Snapshot(): MatchState
      reads this
    {
      MatchState(team1, team2, totalOvers, tossWinner, tossDecision, status, isLive,
                 currentInnings, innings, batsmanStats, bowlerStats, commentary, result)
    }

    /** A match document as found in the store. */
    constructor Load(s: MatchState)
      ensures Snapshot() == s && events == []
    {
      team1, team2, totalOvers := s.team1, s.team2, s.totalOvers;
      tossWinner, tossDecision := s.tossWinner, s.tossDecision;
      status, isLive, currentInnings := s.status, s.isLive, s.currentInnings;
      innings, batsmanStats, bowlerStats := s.innings, s.batsmanStats, s.bowlerStats;
      commentary, result := s.commentary, s.result;
      events := [];
    }

    /** POST /:matchId/start (matches.js 59-107). */
    method Start() returns (failure: Option<Error>)
      modifies this
      ensures var r := Engine.Start(old(Snapshot()));
        && (r.Success? ==> failure == None && Snapshot() == r.value.state
                           && events == old(events) + r.value.events)
        && (r.Failure? ==> failure == Some(r.error) && Snapshot() == old(Snapshot())
                           && events == old(events))
    {
      ghost var before := Snapshot();
      if tossWinner == "" || tossDecision == "" {
        return Some(TossNotSet);
      }
      status := Live;
      isLive := true;
      var teamOneBats := tossWinner == team1 && tossDecision == "bat";
      innings := innings + [NewInnings(1, if teamOneBats then team1 else team2,
                                          if teamOneBats then team2 else team1)];
      currentInnings := 1;
      events := events + [MatchStarted];
      failure := None;
      assert Engine.Start(before) == Success(Step(Snapshot(), events[|old(events)|..]));
      assert events == old(events) + events[|old(events)|..];
    }

    /** POST /:matchId/end-innings (matches.js 110-214). */
    method EndInnings() returns (failure: Option<Error>)
      modifies this
      ensures var r := Engine.EndInnings(old(Snapshot()));
        && (r.Success? ==> failure == None && Snapshot() == r.value.state
                           && events == old(events) + r.value.events)
        && (r.Failure? ==> failure == Some(r.error) && Snapshot() == old(Snapshot())
                           && events == old(events))
    {
      ghost var before := Snapshot();
      if status != Live {
        return Some(NotLive);
      }
      if !(1 <= currentInnings <= |innings|) {
        return Some(NoCurrentInnings);
      }
      if currentInnings != 1 && result.None? {
        result := Some(MatchResult("", ""));
      }
      CloseInnings();
      if currentInnings == 2 && before.currentInnings == 1 {
        events := events + [InningsChanged(2, innings[1].battingTeam)];
      } else {
        events := events + [MatchEnded(result.value.winner, result.value.winBy)];
      }
      failure := None;
    }

    /**
     * Marks the current innings completed, then either opens innings 2 with
     * the sides swapped or completes the match and writes the winner into
     * the result object (matches.js 128-188, 421-444). The ball route does
     * not create a missing result object, so the caller must.
     */
    method CloseInnings()
      modifies this
      requires HasCurrentInnings(Snapshot())
      requires currentInnings != 1 ==> result.Some?
      ensures Snapshot() == FinishInnings(old(Snapshot())) && events == old(events)
    {
      var k := currentInnings - 1;
      innings := innings[k := innings[k].(isCompleted := true)];
      if currentInnings == 1 {
        currentInnings := 2;
        innings := innings + [NewInnings(2, innings[k].bowlingTeam, innings[k].battingTeam)];
      } else {
        status := Completed;
        isLive := false;
        var decided := Decide(innings[0], innings[1]);
        result := Some(result.value.(winner := decided.winner, winBy := decided.winBy));
      }
    }

    /** Writes back the four collections a ball changes. */
    method Commit(inn: seq<Innings>, bats: seq<BatsmanStat>, bowls: seq<BowlerStat>, log: seq<CommentaryEntry>)
      modifies this
      ensures Snapshot() == old(Snapshot()).(innings := inn, batsmanStats := bats,
                                             bowlerStats := bowls, commentary := log)
      ensures events == old(events)
    {
      innings := inn;
      batsmanStats := bats;
      bowlerStats := bowls;
      commentary := log;
    }

    /** POST /:matchId/ball (matches.js 217-487). */
    method AddBall(d: Delivery) returns (outcome: Result<Ball, Error>)
      modifies this
      ensures var r := Engine.AddBall(old(Snapshot()), d);
        && (r.Success? ==> outcome == Success(r.value.ball) && Snapshot() == r.value.state
                           && events == old(events) + r.value.events)
        && (r.Failure? ==> outcome == Failure(r.error) && Snapshot() == old(Snapshot())
                           && events == old(events))
    {
      ghost var before := Snapshot();
      if status != Live {
        return Failure(NotLive);
      }
      if |innings| == 0 {
        return Failure(NoInnings);
      }
      if !(1 <= currentInnings <= |innings|) {
        return Failure(NoCurrentInnings);
      }
      var recorded, ball := RecordBall(Snapshot(), d);
      assert Engine.AddBall(before, d) == Settle(recorded, ball);
      outcome := FinishBall(recorded, ball);
    }

    /**
     * Saves a recorded ball that differs from the stored match only in its
     * innings, stat tables and commentary, and runs the completion check on it;
     * when that check fails nothing is saved.
     */
    method FinishBall(recorded: MatchState, ball: Ball) returns (outcome: Result<Ball, Error>)
      modifies this
      requires HasCurrentInnings(recorded) && |recorded.commentary| > 0
      requires Snapshot().(innings := recorded.innings, batsmanStats := recorded.batsmanStats,
                           bowlerStats := recorded.bowlerStats, commentary := recorded.commentary) == recorded
      ensures var r := Settle(recorded, ball);
        && (r.Success? ==> outcome == Success(ball) && Snapshot() == r.value.state
                           && events == old(events) + r.value.events)
        && (r.Failure? ==> outcome == Failure(r.error) && Snapshot() == old(Snapshot())
                           && events == old(events))
    {
      var k := currentInnings - 1;
      var inn := recorded.innings[k];
      var closes := inn.wickets >= 10 || inn.currentOver >= totalOvers;
      if closes && currentInnings != 1 && result.None? {
        // the route writes into the absent result object, which throws before
        // the save: the caller gets a 400 and the stored match is unchanged
        return Failure(ResultMissing);
      }

      Commit(recorded.innings, recorded.batsmanStats, recorded.bowlerStats, recorded.commentary);
      SettleBall(ball, recorded.commentary[0].text);
      outcome := Success(ball);
    }

    /**
     * The completion check of the ball route (matches.js 408-444) and the
     * broadcasts that follow it: an innings that is over is closed, and the
     * ball is announced after the match-ended event, if any.
     */
    method SettleBall(ball: Ball, text: string)
      modifies this
      requires HasCurrentInnings(Snapshot()) && |commentary| > 0 && commentary[0].text == text
      requires Settle(Snapshot(), ball).Success?
      ensures var r := Settle(old(Snapshot()), ball);
        Snapshot() == r.value.state && events == old(events) + r.value.events
    {
      var k := currentInnings - 1;
      var update := BallUpdate(ball, text);
      if innings[k].wickets >= 10 || innings[k].currentOver >= totalOvers {
        if currentInnings == 1 {
          CloseInnings();
          events := events + [update];
        } else {
          CloseInnings();
          events := events + [MatchEnded(result.value.winner, result.value.winBy), update];
        }
      } else {
        events := events + [update];
      }
    }

  }

  /**
   * Everything the ball route records before its completion check
   * (matches.js 245-406): the innings with the ball scored, the ball, the
   * batting and bowling rows, and the commentary entry.
   */
  method RecordBall(m: MatchState, d: Delivery) returns (recorded: MatchState, ball: Ball)
    requires HasCurrentInnings(m)
    ensures recorded == Recorded(m, d) && ball == BallFor(m.innings[m.currentInnings - 1], d)
    ensures m.(innings := recorded.innings, batsmanStats := recorded.batsmanStats,
               bowlerStats := recorded.bowlerStats, commentary := recorded.commentary) == recorded
  {
    var k := m.currentInnings - 1;
    var inn := OpenOver(m.innings[k], d);
    inn, ball := ScoreInnings(inn, d);
    var bats := CreditStriker(m.batsmanStats, d);
    var bowls;
    bowls, inn := CreditBowler(m.bowlerStats, d, inn);
    var entry := Announce(inn, d);
    recorded := Assemble(m, inn, bats, bowls, entry);
    RecordedFromParts(m, d, inn, bats, bowls, entry);
  }

  /** The recorded match is assembled from the scored innings, the credited rows and the new entry. */
  lemma RecordedFromParts(m: MatchState, d: Delivery, inn: Innings, bats: seq<BatsmanStat>,
                          bowls: seq<BowlerStat>, entry: CommentaryEntry)
    requires HasCurrentInnings(m)
    requires inn == Scored(m.innings[m.currentInnings - 1], d)
    requires bats == UpsertBatsman(m.batsmanStats, d) && bowls == BowlersAfter(m.bowlerStats, d, inn)
    requires entry == EntryFor(inn, d)
    ensures Recorded(m, d) == Assemble(m, inn, bats, bowls, entry)
  {
    RecordedUnfolds(m, d);
    AssembledParts(m, d, inn, bats, bowls, entry);
  }

  lemma AssembledParts(m: MatchState, d: Delivery, inn: Innings, bats: seq<BatsmanStat>,
                       bowls: seq<BowlerStat>, entry: CommentaryEntry)
    requires HasCurrentInnings(m) && |inn.overs| > 0
    requires bats == UpsertBatsman(m.batsmanStats, d) && bowls == BowlersAfter(m.bowlerStats, d, inn)
    requires entry == EntryFor(inn, d)
    ensures RecordedWith(m, d, inn) == Assemble(m, inn, bats, bowls, entry)
  {
  }

  /** The bowler's row charged for the ball, then credited the over if it is complete (matches.js 346-378). */
  method CreditBowler(rows: seq<BowlerStat>, d: Delivery, scored: Innings)
    returns (bowls: seq<BowlerStat>, inn: Innings)
    requires |scored.overs| > 0
    ensures inn == MarkMaiden(scored) && bowls == BowlersAfter(rows, d, inn)
  {
    bowls := ChargeBowlerRow(rows, d);
    bowls, inn := CloseOver(bowls, Slot(rows, BowlerName, d.bowler), scored);
  }

  /** The commentary entry for the ball just scored (matches.js 386-406). */
  method Announce(inn: Innings, d: Delivery) returns (entry: CommentaryEntry)
    requires |inn.overs| > 0
    ensures entry == EntryFor(inn, d)
  {
    var over := inn.overs[|inn.overs| - 1];
    var ballNumber := Label(inn.currentOver, |over.balls|);
    entry := CommentaryEntry(ballNumber, Commentary.Line(inn.currentOver, |over.balls|, d));
  }

  /** Opens a new over when there is none yet or the latest already holds six balls (matches.js 245-259). */
  method OpenOver(start: Innings, d: Delivery) returns (inn: Innings)
    ensures inn == Opened(start, d)
  {
    inn := start;
    if |inn.overs| == 0 || |inn.overs[|inn.overs| - 1].balls| == 6 {
      inn := inn.(overs := inn.overs + [Over(inn.currentOver + 1, d.bowler, [], 0, 0, false)]);
      inn := inn.(currentOver := inn.currentOver + 1, currentBall := 0);
    }
  }

  /**
   * The rest of the innings half of the ball route (matches.js 261-312):
   * record who is at the crease, build the ball, move the cursor, append
   * the ball to the latest over and add up the totals.
   */
  method ScoreInnings(inn: Innings, d: Delivery) returns (scored: Innings, ball: Ball)
    requires |inn.overs| > 0
    ensures ball == MakeBall(|Last(inn.overs).balls| + 1, d)
    ensures scored == ScoreBall(inn, d, ball)
  {
    var last := |inn.overs| - 1;
    var over := inn.overs[last];
    ball := MakeBall(|over.balls| + 1, d);

    var currentBall := inn.currentBall;
    if !d.isWide && !d.isNoBall {
      currentBall := currentBall + 1;
      if currentBall == 6 {
        currentBall := 0;
      }
    }
    over := over.(balls := over.balls + [ball], runsInOver := over.runsInOver + d.runs);
    var runs := inn.runs + d.runs + ball.extras;
    var wickets := inn.wickets;
    if d.isWicket {
      wickets := wickets + 1;
      over := over.(wicketsInOver := over.wicketsInOver + 1);
    }
    var extras := inn.extras;
    if d.isWide { extras := extras.(wides := extras.wides + 1); }
    if d.isNoBall { extras := extras.(noBalls := extras.noBalls + 1); }
    if d.isBye { extras := extras.(byes := extras.byes + d.runs); }
    if d.isLegBye { extras := extras.(legByes := extras.legByes + d.runs); }
    scored := inn.(striker := Some(d.striker), nonStriker := Some(d.nonStriker), bowler := Some(d.bowler),
                   currentBall := currentBall, overs := inn.overs[last := over],
                   runs := runs, wickets := wickets, extras := extras);
  }

  /** The striker's row, created on first appearance, then credited (matches.js 315-343). */
  method CreditStriker(rows: seq<BatsmanStat>, d: Delivery) returns (bats: seq<BatsmanStat>)
    ensures bats == UpsertBatsman(rows, d)
  {
    bats := rows;
    var bi := Slot(rows, BatsmanName, d.striker);
    if FindFirst(rows, BatsmanName, d.striker).None? {
      bats := bats + [FreshBatsman(d.striker)];
    }
    var bat := bats[bi];
    if !d.isWide && !d.isNoBall {
      bat := bat.(ballsFaced := bat.ballsFaced + 1);
    }
    if !d.isBye && !d.isLegBye {
      bat := bat.(runs := bat.runs + d.runs);
      if d.runs == 4 { bat := bat.(fours := bat.fours + 1); }
      if d.runs == 6 { bat := bat.(sixes := bat.sixes + 1); }
    }
    if CreditsDismissal(d) {
      bat := bat.(isOut := true, dismissalType := d.wicketType, bowlerName := Some(d.bowler));
      if NonBlank(d.fielder) {
        bat := bat.(fielderName := d.fielder);
      }
    }
    bats := bats[bi := bat];
  }

  /** The bowler's row, created on first appearance, then charged for the ball (matches.js 346-366). */
  method ChargeBowlerRow(rows: seq<BowlerStat>, d: Delivery) returns (bowls: seq<BowlerStat>)
    ensures bowls == UpsertBowler(rows, d, ExtrasOf(d))
  {
    bowls := rows;
    var wi := Slot(rows, BowlerName, d.bowler);
    if FindFirst(rows, BowlerName, d.bowler).None? {
      bowls := bowls + [FreshBowler(d.bowler)];
    }
    var bowl := bowls[wi];
    bowl := bowl.(runs := bowl.runs + d.runs + ExtrasOf(d));
    if CreditsDismissal(d) { bowl := bowl.(wickets := bowl.wickets + 1); }
    if d.isWide { bowl := bowl.(wides := bowl.wides + 1); }
    if d.isNoBall { bowl := bowl.(noBalls := bowl.noBalls + 1); }
    bowls := bowls[wi := bowl];
  }

  /**
   * An over of six balls, all legal, is credited to the bowler's row `wi`,
   * and flagged a maiden on both the row and the over when the over's run
   * count is zero (matches.js 368-378).
   */
  method CloseOver(rows: seq<BowlerStat>, wi: nat, scored: Innings)
    returns (bowls: seq<BowlerStat>, inn: Innings)
    requires wi < |rows| && |scored.overs| > 0
    ensures inn == MarkMaiden(scored)
    ensures OverComplete(Last(scored.overs))
            ==> bowls == rows[wi := CreditOver(rows[wi], Last(scored.overs).runsInOver == 0)]
    ensures !OverComplete(Last(scored.overs)) ==> bowls == rows
  {
    bowls := rows;
    inn := scored;
    var last := |inn.overs| - 1;
    var over := inn.overs[last];
    if |over.balls| == 6 {
      if LegalCount(over.balls) == 6 {
        var bowl := bowls[wi];
        bowl := bowl.(overs := bowl.overs + 1);
        if over.runsInOver == 0 {
          over := over.(maidenOver := true);
          inn := inn.(overs := inn.overs[last := over]);
          bowl := bowl.(maidens := bowl.maidens + 1);
        }
        bowls := bowls[wi := bowl];
      }
    }
  }
}
