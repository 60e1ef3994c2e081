/**
 * What the three routes promise, stated over the functions of Engine:
 * the start precondition and the toss rule, the ball route's guards, over
 * cursor, run and extras accounting, stat rows, over and maiden credit,
 * commentary, and the innings/match completion with its winner rule.
 * Several lemmas pin down behaviour of the routes as written that a
 * cricket scorer would not expect (double-counted extras, the toss rule,
 * an innings cut short on the first ball of its last over, the ball route
 * failing to complete a match that has no result object, start with no
 * status guard).
 */
module Properties {
  import opened Wrappers
  import opened Text
  import opened Records
  import opened Scoring
  import opened Stats
  import opened Engine
  import opened Invariants
  import Commentary

  // ---------------------------------------------------------------- start

  /** start: refused without a toss; otherwise live, innings 1 appended with zeroed counters, nothing else touched. */
  lemma StartContract(m: MatchState)
    ensures Start(m).Failure? <==> m.tossWinner == "" || m.tossDecision == ""
    ensures Start(m).Failure? ==> Start(m).error == TossNotSet
    ensures Start(m).Success? ==>
      var s := Start(m).value.state;
      && s.status == Live && s.isLive && s.currentInnings == 1
      && |s.innings| == |m.innings| + 1 && s.innings[..|m.innings|] == m.innings
      && s.(status := m.status, isLive := m.isLive, innings := m.innings,
            currentInnings := m.currentInnings) == m
      && Start(m).value.events == [MatchStarted]
      && var inn := Last(s.innings);
         && inn.inningsNumber == 1 && inn.runs == 0 && inn.wickets == 0
         && inn.currentOver == 0 && inn.currentBall == 0 && inn.overs == []
         && inn.extras == Extras(0, 0, 0, 0) && !inn.isCompleted
         && (inn.battingTeam == m.team1 ==> inn.bowlingTeam == m.team2)
         && (inn.battingTeam != m.team1 ==> inn.battingTeam == m.team2 && inn.bowlingTeam == m.team1)
         && (m.team1 != m.team2 ==>
               (inn.battingTeam == m.team1 <==> m.tossWinner == m.team1 && m.tossDecision == "bat"))
  {
    if Start(m).Success? {
      var s := Start(m).value.state;
      assert s.innings[..|m.innings|] == m.innings;
    }
  }

  /** The toss rule is not symmetric: team 2 winning the toss and choosing to bowl still bats first. */
  lemma TossWinnerTwoBowlingStillBats(m: MatchState)
    requires m.team1 != m.team2 && m.team2 != "" && m.tossWinner == m.team2 && m.tossDecision == "bowl"
    ensures Start(m).Success?
    ensures Last(Start(m).value.state.innings).battingTeam == m.team2
    ensures Last(Start(m).value.state.innings).bowlingTeam == m.team1
  {
  }

  /**
   * start has no status guard: on a live or completed match it appends
   * another innings 1 and points currentInnings back at innings[0].
   */
  lemma StartAgainAppends(m: MatchState)
    requires m.tossWinner != "" && m.tossDecision != "" && |m.innings| >= 1
    ensures Start(m).Success?
    ensures |Start(m).value.state.innings| == |m.innings| + 1
    ensures Start(m).value.state.innings[Start(m).value.state.currentInnings - 1] == m.innings[0]
  {
  }

  // ------------------------------------------------------------ ball guards

  /** The ball route's 400 answers, and that a refused ball leaves nothing to save. */
  lemma AddBallGuards(m: MatchState, d: Delivery)
    ensures m.status != Live ==> AddBall(m, d) == Failure(NotLive)
    ensures m.status == Live && |m.innings| == 0 ==> AddBall(m, d) == Failure(NoInnings)
    ensures m.status == Live && |m.innings| > 0 && !HasCurrentInnings(m) ==>
              AddBall(m, d) == Failure(NoCurrentInnings)
    ensures AddBall(m, d).Success? ==> m.status == Live && HasCurrentInnings(m)
    ensures AddBall(m, d) == Failure(ResultMissing) <==>
              m.status == Live && HasCurrentInnings(m) && m.currentInnings != 1 && m.result.None?
              && InningsOver(Scored(m.innings[m.currentInnings - 1], d), m.totalOvers)
  {
  }

  // ---------------------------------------------------- the innings a ball touches

  /**
   * Only the current innings changes (besides innings 2 being appended):
   * it becomes the scored innings, marked completed when the innings is
   * over; the stat rows and commentary are those the ball produces.
   */
  lemma AddBallShape(m: MatchState, d: Delivery)
    requires AddBall(m, d).Success?
    ensures HasCurrentInnings(m) && m.status == Live
    ensures var s := AddBall(m, d).value.state;
      var k := m.currentInnings - 1;
      var sc := Scored(m.innings[k], d);
      && |s.innings| >= |m.innings|
      && s.innings[k] == (if InningsOver(sc, m.totalOvers) then sc.(isCompleted := true) else sc)
      && (forall i :: 0 <= i < |m.innings| && i != k ==> s.innings[i] == m.innings[i])
      && s.batsmanStats == UpsertBatsman(m.batsmanStats, d)
      && s.bowlerStats == BowlersAfter(m.bowlerStats, d, sc)
      && s.commentary == [EntryFor(sc, d)] + m.commentary
      && AddBall(m, d).value.ball == BallFor(m.innings[k], d)
      && |AddBall(m, d).value.events| > 0
      && Last(AddBall(m, d).value.events) == BallUpdate(BallFor(m.innings[k], d), EntryFor(sc, d).text)
  {
    var k := m.currentInnings - 1;
    var ball := BallFor(m.innings[k], d);
    assert AddBall(m, d) == Settle(Recorded(m, d), ball);
    RecordedShape(m, d);
    SettleShape(Recorded(m, d), ball);
  }

  /** Recording a ball replaces the current innings by the scored one, both stat tables and the commentary. */
  lemma RecordedShape(m: MatchState, d: Delivery)
    requires HasCurrentInnings(m)
    ensures var r := Recorded(m, d);
      var k := m.currentInnings - 1;
      var sc := Scored(m.innings[k], d);
      && r.innings[k] == sc && r.totalOvers == m.totalOvers && r.result == m.result
      && (forall i :: 0 <= i < |m.innings| && i != k ==> r.innings[i] == m.innings[i])
      && r.batsmanStats == UpsertBatsman(m.batsmanStats, d)
      && r.bowlerStats == BowlersAfter(m.bowlerStats, d, sc)
      && r.commentary == [EntryFor(sc, d)] + m.commentary
  {
    RecordedUnfolds(m, d);
    RecordedWithParts(m, d, Scored(m.innings[m.currentInnings - 1], d));
  }

  /** The completion check touches the current innings' completion flag only, and announces the ball last. */
  lemma SettleShape(r: MatchState, ball: Ball)
    requires HasCurrentInnings(r) && |r.commentary| > 0 && Settle(r, ball).Success?
    ensures var st := Settle(r, ball).value;
      var s := st.state;
      var k := r.currentInnings - 1;
      && |s.innings| >= |r.innings|
      && s.innings[k] == (if InningsOver(r.innings[k], r.totalOvers) then r.innings[k].(isCompleted := true)
                          else r.innings[k])
      && (forall i :: 0 <= i < |r.innings| && i != k ==> s.innings[i] == r.innings[i])
      && s.batsmanStats == r.batsmanStats && s.bowlerStats == r.bowlerStats
      && s.commentary == r.commentary
      && st.ball == ball && |st.events| > 0 && Last(st.events) == BallUpdate(ball, r.commentary[0].text)
  {
    if InningsOver(r.innings[r.currentInnings - 1], r.totalOvers) {
      FinishShape(r);
    }
  }

  /** Closing the current innings touches only that innings' completion flag among the existing innings, and no stat row or commentary. */
  lemma FinishShape(m: MatchState)
    requires HasCurrentInnings(m)
    ensures var f := FinishInnings(m);
      var k := m.currentInnings - 1;
      && |f.innings| >= |m.innings|
      && f.innings[k] == m.innings[k].(isCompleted := true)
      && (forall i :: 0 <= i < |m.innings| && i != k ==> f.innings[i] == m.innings[i])
      && f.batsmanStats == m.batsmanStats && f.bowlerStats == m.bowlerStats
      && f.commentary == m.commentary
  {
  }

  /**
   * The over cursor: a new over, numbered currentOver + 1 and bowled by the
   * submitted bowler, is opened exactly when there is none or the latest
   * holds six balls; currentBall moves only on a legal ball.
   */
  lemma AddBallCursor(m: MatchState, d: Delivery)
    requires AddBall(m, d).Success?
    requires HasCurrentInnings(m) && WellFormed(m.innings[m.currentInnings - 1])
    ensures m.currentInnings - 1 < |AddBall(m, d).value.state.innings|
    ensures var k := m.currentInnings - 1;
      CursorStep(m.innings[k], AddBall(m, d).value.state.innings[k], d)
  {
    var k := m.currentInnings - 1;
    var inn := m.innings[k];
    AddBallShape(m, d);
    ScoredCursorStep(inn, d);
    var sc := Scored(inn, d);
    if InningsOver(sc, m.totalOvers) {
      CursorStepCompleted(inn, sc, d);
    }
  }

  /** Marking an innings completed does not move its cursor. */
  lemma CursorStepCompleted(inn: Innings, inn': Innings, d: Delivery)
    requires CursorStep(inn, inn', d)
    ensures CursorStep(inn, inn'.(isCompleted := true), d)
  {
    var c := inn'.(isCompleted := true);
    assert c.overs == inn'.overs && c.currentOver == inn'.currentOver && c.currentBall == inn'.currentBall;
  }

  /** How one ball moves the over cursor of the innings it is scored on. */
  predicate CursorStep(inn: Innings, inn': Innings, d: Delivery) {
    var grew := if NeedsNewOver(inn) then 1 else 0;
    var legal := !d.isWide && !d.isNoBall;
    && CursorOk(inn')
    && |inn'.overs| == |inn.overs| + grew
    && inn'.currentOver == inn.currentOver + grew
    && (NeedsNewOver(inn) ==>
          && Last(inn'.overs).overNumber == inn.currentOver + 1
          && Last(inn'.overs).bowler == d.bowler
          && |Last(inn'.overs).balls| == 1
          && inn'.currentBall == (if legal then 1 else 0))
    && (!NeedsNewOver(inn) ==>
          && |Last(inn'.overs).balls| == |Last(inn.overs).balls| + 1
          && inn'.currentBall == (if legal then (inn.currentBall + 1) % 6 else inn.currentBall))
    && |inn.overs| - 1 + grew >= 0
    && inn'.overs[..|inn.overs| - 1 + grew] == inn.overs[..|inn.overs| - 1 + grew]
  }

  lemma ScoredCursorStep(inn: Innings, d: Delivery)
    requires WellFormed(inn)
    ensures CursorStep(inn, Scored(inn, d), d)
  {
    ScoredWellFormed(inn, d);
    OpenedReady(inn, d);
    ScoredShape(inn, d);
    var o := Opened(inn, d);
    var sc := Scored(inn, d);
    if !NeedsNewOver(inn) {
      assert o == inn;
    } else {
      assert o.overs[..|inn.overs|] == inn.overs;
      assert sc.overs[..|inn.overs|] == o.overs[..|inn.overs|];
    }
  }

  /**
   * Scoring a ball appends it to the latest over, moves the ball cursor,
   * adds to the totals and the extras tally, and records the submitted
   * striker, non-striker and bowler at the crease; the innings' number,
   * teams and completion flag are kept.
   */
  lemma ScoredShape(inn: Innings, d: Delivery)
    ensures var o := Opened(inn, d);
      var sc := Scored(inn, d);
      var n := |o.overs|;
      && |sc.overs| == n && sc.overs[..n - 1] == o.overs[..n - 1]
      && Last(sc.overs).balls == Last(o.overs).balls + [BallFor(inn, d)]
      && Last(sc.overs).overNumber == Last(o.overs).overNumber
      && Last(sc.overs).bowler == Last(o.overs).bowler
      && sc.currentOver == o.currentOver
      && sc.currentBall == AdvanceBall(o.currentBall, d)
    ensures Scored(inn, d).(overs := inn.overs, currentOver := inn.currentOver,
                            currentBall := inn.currentBall, runs := inn.runs,
                            wickets := inn.wickets, extras := inn.extras)
            == inn.(striker := Some(d.striker), nonStriker := Some(d.nonStriker),
                    bowler := Some(d.bowler))
  {
    var o := Opened(inn, d);
    var s := ScoreBall(o, d, BallFor(inn, d));
    var n := |o.overs|;
    assert s.overs[..n - 1] == o.overs[..n - 1];
    var sc := MarkMaiden(s);
    assert sc.overs[..n - 1] == s.overs[..n - 1];
  }

  // ------------------------------------------------------------ run accounting

  /**
   * One delivery's accounting: the ball's batsman runs and extras, the
   * over's runs (the signalled runs only) and wickets, the innings runs
   * (runs plus extras), wickets and extras tally.
   */
  lemma ScoredAccounting(inn: Innings, d: Delivery)
    ensures var o := Last(Opened(inn, d).overs);
      var sc := Scored(inn, d);
      var o' := Last(sc.overs);
      var b := BallFor(inn, d);
      var w := if d.isWicket then 1 else 0;
      && b.batsmanRuns == (if d.isBye || d.isLegBye then 0 else d.runs)
      && b.extras == (if d.isWide || d.isNoBall then 1 + d.runs
                      else if d.isBye || d.isLegBye then d.runs else 0)
      && b.ballNumber == |o.balls| + 1 && o'.balls == o.balls + [b]
      && o'.runsInOver == o.runsInOver + d.runs
      && o'.wicketsInOver == o.wicketsInOver + w
      && sc.runs == inn.runs + d.runs + b.extras
      && sc.wickets == inn.wickets + w
      && sc.extras.wides == inn.extras.wides + (if d.isWide then 1 else 0)
      && sc.extras.noBalls == inn.extras.noBalls + (if d.isNoBall then 1 else 0)
      && sc.extras.byes == inn.extras.byes + (if d.isBye then d.runs else 0)
      && sc.extras.legByes == inn.extras.legByes + (if d.isLegBye then d.runs else 0)
  {
    ScoredShape(inn, d);
  }

  /**
   * Extras are counted twice in the innings total: the ball's extras
   * already include its runs, and the innings adds runs plus extras.
   */
  lemma InningsIncrementDoublesExtras(inn: Innings, d: Delivery)
    ensures Scored(inn, d).runs - inn.runs ==
      if d.isWide || d.isNoBall then 2 * d.runs + 1
      else if d.isBye || d.isLegBye then 2 * d.runs
      else d.runs
  {
  }

  /** A wide with one run adds three to the innings and to the bowler, and one run to the striker. */
  lemma OneRunWideAddsThree(m: MatchState, d: Delivery)
    requires AddBall(m, d).Success?
    requires d.isWide && !d.isNoBall && !d.isBye && !d.isLegBye && d.runs == 1
    ensures var k := m.currentInnings - 1;
      AddBall(m, d).value.state.innings[k].runs == m.innings[k].runs + 3
    ensures var s := AddBall(m, d).value.state;
      var j := Slot(m.bowlerStats, BowlerName, d.bowler);
      var before := if j < |m.bowlerStats| then m.bowlerStats[j] else FreshBowler(d.bowler);
      j < |s.bowlerStats| && s.bowlerStats[j].runs == before.runs + 3
    ensures var s := AddBall(m, d).value.state;
      var j := Slot(m.batsmanStats, BatsmanName, d.striker);
      var before := if j < |m.batsmanStats| then m.batsmanStats[j] else FreshBatsman(d.striker);
      j < |s.batsmanStats| && s.batsmanStats[j].runs == before.runs + 1
      && s.batsmanStats[j].ballsFaced == before.ballsFaced
  {
    var k := m.currentInnings - 1;
    var s := AddBall(m, d).value.state;
    var sc := Scored(m.innings[k], d);
    AddBallShape(m, d);
    ScoredAccounting(m.innings[k], d);
    assert ExtrasOf(d) == 2;
    assert s.batsmanStats == UpsertBatsman(m.batsmanStats, d);
    assert s.bowlerStats == BowlersAfter(m.bowlerStats, d, sc);
    BatsmanRow(m.batsmanStats, d);
    BowlerRow(m.bowlerStats, d, sc);
  }

  // ---------------------------------------------------------------- stat rows

  /**
   * The striker's row: found by name (the first match) or appended, then
   * credited; every other row is left as it was.
   */
  lemma BatsmanRow(rows: seq<BatsmanStat>, d: Delivery)
    ensures var r := UpsertBatsman(rows, d);
      var k := Slot(rows, BatsmanName, d.striker);
      var before := if k < |rows| then rows[k] else FreshBatsman(d.striker);
      var scored := !d.isBye && !d.isLegBye;
      && k < |r| && r[k].playerName == d.striker
      && (forall i :: 0 <= i < k ==> rows[i].playerName != d.striker)
      && |r| == (if k < |rows| then |rows| else |rows| + 1)
      && (forall i :: 0 <= i < |rows| && i != k ==> r[i] == rows[i])
      && r[k].ballsFaced == before.ballsFaced + (if !d.isWide && !d.isNoBall then 1 else 0)
      && r[k].runs == before.runs + (if scored then d.runs else 0)
      && r[k].fours == before.fours + (if scored && d.runs == 4 then 1 else 0)
      && r[k].sixes == before.sixes + (if scored && d.runs == 6 then 1 else 0)
      && (r[k].isOut <==> before.isOut || CreditsDismissal(d))
      && (CreditsDismissal(d) ==>
            r[k].dismissalType == d.wicketType && r[k].bowlerName == Some(d.bowler)
            && r[k].fielderName == (if NonBlank(d.fielder) then d.fielder else before.fielderName))
      && (!CreditsDismissal(d) ==>
            r[k].dismissalType == before.dismissalType && r[k].bowlerName == before.bowlerName
            && r[k].fielderName == before.fielderName)
  {
    var k := Slot(rows, BatsmanName, d.striker);
    var base := EnsureRow(rows, BatsmanName, d.striker, FreshBatsman(d.striker));
    if k < |rows| {
      assert FindFirst(rows, BatsmanName, d.striker).Some?;
      assert base == rows;
    } else {
      assert base == rows + [FreshBatsman(d.striker)];
    }
    assert forall i :: 0 <= i < |rows| ==> base[i] == rows[i];
  }

  /**
   * A dismissal is credited to both stat rows or to neither: a striker who
   * was not out is marked out by the ball exactly when the bowler's row
   * gains a wicket, and then with this ball's type and bowler.
   */
  lemma DismissalCreditedTogether(m: MatchState, d: Delivery)
    requires AddBall(m, d).Success?
    requires forall i :: 0 <= i < |m.batsmanStats| && m.batsmanStats[i].playerName == d.striker ==>
               !m.batsmanStats[i].isOut
    ensures var s := AddBall(m, d).value.state;
      var j := Slot(m.batsmanStats, BatsmanName, d.striker);
      var b := Slot(m.bowlerStats, BowlerName, d.bowler);
      var bowl := if b < |m.bowlerStats| then m.bowlerStats[b] else FreshBowler(d.bowler);
      && j < |s.batsmanStats| && b < |s.bowlerStats|
      && (s.batsmanStats[j].isOut <==> s.bowlerStats[b].wickets == bowl.wickets + 1)
      && (s.batsmanStats[j].isOut ==>
            s.batsmanStats[j].dismissalType == d.wicketType
            && s.batsmanStats[j].bowlerName == Some(d.bowler))
  {
    var k := m.currentInnings - 1;
    var sc := Scored(m.innings[k], d);
    AddBallShape(m, d);
    BatsmanRow(m.batsmanStats, d);
    BowlerRow(m.bowlerStats, d, sc);
  }

  /**
   * A run out is a wicket of the innings but is credited to neither stat
   * row: the striker's row keeps its dismissal and the bowler's row its
   * wickets.
   */
  lemma RunOutNotCredited(m: MatchState, d: Delivery)
    requires AddBall(m, d).Success?
    requires d.isWicket && d.wicketType == Some("run_out")
    ensures var s := AddBall(m, d).value.state;
      var k := m.currentInnings - 1;
      var j := Slot(m.batsmanStats, BatsmanName, d.striker);
      var bat := if j < |m.batsmanStats| then m.batsmanStats[j] else FreshBatsman(d.striker);
      var b := Slot(m.bowlerStats, BowlerName, d.bowler);
      var bowl := if b < |m.bowlerStats| then m.bowlerStats[b] else FreshBowler(d.bowler);
      && k < |s.innings| && s.innings[k].wickets == m.innings[k].wickets + 1
      && j < |s.batsmanStats| && b < |s.bowlerStats|
      && s.batsmanStats[j].isOut == bat.isOut
      && s.batsmanStats[j].dismissalType == bat.dismissalType
      && s.bowlerStats[b].wickets == bowl.wickets
  {
    var k := m.currentInnings - 1;
    var sc := Scored(m.innings[k], d);
    AddBallShape(m, d);
    ScoredAccounting(m.innings[k], d);
    BatsmanRow(m.batsmanStats, d);
    BowlerRow(m.bowlerStats, d, sc);
  }

  /**
   * The bowler's row: found or appended, charged runs plus extras, a wicket
   * when the dismissal is credited, wides and no-balls, and an over (with a
   * maiden when the over's runs are zero) exactly when the latest over is
   * six legal balls; every other row is left as it was.
   */
  lemma BowlerRow(rows: seq<BowlerStat>, d: Delivery, scored: Innings)
    requires |scored.overs| > 0
    ensures var r := BowlersAfter(rows, d, scored);
      var k := Slot(rows, BowlerName, d.bowler);
      var before := if k < |rows| then rows[k] else FreshBowler(d.bowler);
      var o := Last(scored.overs);
      var complete := |o.balls| == 6 && forall i :: 0 <= i < 6 ==> IsLegal(o.balls[i]);
      && k < |r| && r[k].playerName == d.bowler
      && (forall i :: 0 <= i < k ==> rows[i].playerName != d.bowler)
      && |r| == (if k < |rows| then |rows| else |rows| + 1)
      && (forall i :: 0 <= i < |rows| && i != k ==> r[i] == rows[i])
      && r[k].runs == before.runs + d.runs + ExtrasOf(d)
      && r[k].wickets == before.wickets + (if CreditsDismissal(d) then 1 else 0)
      && r[k].wides == before.wides + (if d.isWide then 1 else 0)
      && r[k].noBalls == before.noBalls + (if d.isNoBall then 1 else 0)
      && r[k].overs == before.overs + (if complete then 1 else 0)
      && r[k].maidens == before.maidens + (if complete && o.runsInOver == 0 then 1 else 0)
  {
    var k := Slot(rows, BowlerName, d.bowler);
    var base := EnsureRow(rows, BowlerName, d.bowler, FreshBowler(d.bowler));
    if k < |rows| {
      assert FindFirst(rows, BowlerName, d.bowler).Some?;
      assert base == rows;
    } else {
      assert base == rows + [FreshBowler(d.bowler)];
    }
    assert forall i :: 0 <= i < |rows| ==> base[i] == rows[i];
    var o := Last(scored.overs);
    assert OverComplete(o) <==> |o.balls| == 6 && forall i :: 0 <= i < 6 ==> IsLegal(o.balls[i]);
  }

  /** On a well-formed innings the latest over is flagged a maiden exactly when it is six legal balls with no runs in it. */
  lemma AddBallMaiden(m: MatchState, d: Delivery)
    requires AddBall(m, d).Success?
    requires HasCurrentInnings(m) && WellFormed(m.innings[m.currentInnings - 1])
    ensures m.currentInnings - 1 < |AddBall(m, d).value.state.innings|
    ensures |AddBall(m, d).value.state.innings[m.currentInnings - 1].overs| > 0
    ensures var o := Last(AddBall(m, d).value.state.innings[m.currentInnings - 1].overs);
      o.maidenOver <==> (|o.balls| == 6 && (forall i :: 0 <= i < 6 ==> IsLegal(o.balls[i]))
                         && o.runsInOver == 0)
  {
    var k := m.currentInnings - 1;
    AddBallShape(m, d);
    ScoredWellFormed(m.innings[k], d);
    var sc := Scored(m.innings[k], d);
    assert OverLedgerOk(Last(sc.overs));
  }

  // ----------------------------------------------------------------- commentary

  /**
   * Each ball prepends exactly one commentary entry, labelled with the
   * innings' over count and the number of balls now in the latest over,
   * a label that reads back as that pair; the ball update broadcast carries
   * the same text.
   */
  lemma AddBallCommentary(m: MatchState, d: Delivery)
    requires AddBall(m, d).Success?
    requires HasCurrentInnings(m) && WellFormed(m.innings[m.currentInnings - 1])
    ensures m.currentInnings - 1 < |AddBall(m, d).value.state.innings|
    ensures |AddBall(m, d).value.state.innings[m.currentInnings - 1].overs| > 0
    ensures |AddBall(m, d).value.state.commentary| > 0 && |AddBall(m, d).value.events| > 0
    ensures var st := AddBall(m, d).value;
      var inn' := st.state.innings[m.currentInnings - 1];
      var n := |Last(inn'.overs).balls|;
      && |st.state.commentary| == |m.commentary| + 1
      && st.state.commentary[1..] == m.commentary
      && n == st.ball.ballNumber
      && st.state.commentary[0].ballNumber == Label(inn'.currentOver, n)
      && ParseLabel(st.state.commentary[0].ballNumber) == Some((inn'.currentOver, n))
      && st.state.commentary[0].text ==
           st.state.commentary[0].ballNumber + " " + d.bowler + " to " + d.striker
           + Commentary.Outcome(d)
      && Last(st.events) == BallUpdate(st.ball, st.state.commentary[0].text)
  {
    var k := m.currentInnings - 1;
    AddBallShape(m, d);
    ScoredWellFormed(m.innings[k], d);
    var inn' := AddBall(m, d).value.state.innings[k];
    assert inn'.currentOver == |inn'.overs| >= 1;
    LabelRoundTrip(inn'.currentOver, |Last(inn'.overs).balls|);
  }

  /** Which description a delivery gets, in the route's priority order. */
  datatype Kind = WicketKind | SixKind | FourKind | WideKind | NoBallKind | RunsKind

  function KindOf(d: Delivery): Kind {
    if d.isWicket then WicketKind
    else if d.runs == 6 then SixKind
    else if d.runs == 4 then FourKind
    else if d.isWide then WideKind
    else if d.isNoBall then NoBallKind
    else RunsKind
  }

  /** Reads the kind back from a description. */
  function ReadKind(s: string): Option<Kind> {
    if |s| >= 11 && s[..11] == " - WICKET! " then Some(WicketKind)
    else if s == " - SIX! What a shot!" then Some(SixKind)
    else if s == " - FOUR! Beautiful boundary" then Some(FourKind)
    else if s == " - Wide ball" then Some(WideKind)
    else if s == " - No ball" then Some(NoBallKind)
    else if Commentary.ParsePlainRuns(s).Some? then Some(RunsKind)
    else None
  }

  /**
   * The description names the outcome unambiguously: wicket before six,
   * four, wide, no-ball and plain runs; for plain runs the count reads back.
   */
  lemma OutcomeReadsBack(d: Delivery)
    requires d.runs >= 0
    ensures ReadKind(Commentary.Outcome(d)) == Some(KindOf(d))
    ensures KindOf(d) == RunsKind ==> Commentary.ParsePlainRuns(Commentary.Outcome(d)) == Some(d.runs)
  {
    match KindOf(d)
    case WicketKind => WicketReadsBack(d);
    case RunsKind => RunsReadsBack(d);
    case SixKind => SixReadsBack();
    case FourKind => FourReadsBack();
    case WideKind => WideReadsBack();
    case NoBallKind => NoBallReadsBack();
  }

  lemma WicketReadsBack(d: Delivery)
    requires d.isWicket
    ensures ReadKind(Commentary.Outcome(d)) == Some(WicketKind)
  {
    var s := Commentary.Outcome(d);
    assert s[..11] == " - WICKET! ";
  }

  lemma RunsReadsBack(d: Delivery)
    requires d.runs >= 0 && KindOf(d) == RunsKind
    ensures ReadKind(Commentary.Outcome(d)) == Some(RunsKind)
    ensures Commentary.ParsePlainRuns(Commentary.Outcome(d)) == Some(d.runs)
  {
    var s := Commentary.Outcome(d);
    Commentary.PlainRunsRoundTrip(d);
    var n := NatToString(d.runs);
    assert s[3..] == n + (if d.runs != 1 then " runs" else " run");
    assert s[3] == n[0] && IsDigit(s[3]);
    assert |s| >= 11 ==> s[..11] != " - WICKET! " by {
      if |s| >= 11 { assert s[..11][3] != 'W'; }
    }
  }

  lemma SixReadsBack()
    ensures ReadKind(" - SIX! What a shot!") == Some(SixKind)
  {
    assert " - SIX! What a shot!"[..11][3] != " - WICKET! "[3];
  }

  lemma FourReadsBack()
    ensures ReadKind(" - FOUR! Beautiful boundary") == Some(FourKind)
  {
    assert " - FOUR! Beautiful boundary"[..11][3] != " - WICKET! "[3];
  }

  lemma WideReadsBack()
    ensures ReadKind(" - Wide ball") == Some(WideKind)
  {
    assert " - Wide ball"[..11][4] != " - WICKET! "[4];
  }

  lemma NoBallReadsBack()
    ensures ReadKind(" - No ball") == Some(NoBallKind)
  {
  }

  // ---------------------------------------------------------- innings and match end

  /** The result rule: the side with more runs wins, equal runs tie; the margin is wickets in hand or the run difference. */
  lemma DecideRule(first: Innings, second: Innings)
    requires first.battingTeam != second.battingTeam
    requires first.battingTeam != "tie" && second.battingTeam != "tie"
    ensures var r := Decide(first, second);
      && (r.winner == second.battingTeam <==> second.runs > first.runs)
      && (r.winner == first.battingTeam <==> first.runs > second.runs)
      && (r.winner == "tie" <==> first.runs == second.runs)
      && (second.runs > first.runs ==> r.winBy == IntToString(10 - second.wickets) + " wickets")
      && (first.runs > second.runs ==>
            first.runs - second.runs >= 1
            && r.winBy == NatToString(first.runs - second.runs) + " runs")
      && (first.runs == second.runs ==> r.winBy == "Match tied")
  {
  }

  /** A run-margin result names its margin: two wins by runs with the same winBy text have the same margin. */
  lemma RunMarginReadsBack(first: Innings, second: Innings, first': Innings, second': Innings)
    requires first.runs > second.runs && first'.runs > second'.runs
    requires Decide(first, second).winBy == Decide(first', second').winBy
    ensures first.runs - second.runs == first'.runs - second'.runs
  {
    var a, b := NatToString(first.runs - second.runs), NatToString(first'.runs - second'.runs);
    assert a + " runs" == b + " runs";
    assert |a| == |b|;
    assert a == (a + " runs")[..|a|];
    NatToStringInjective(first.runs - second.runs, first'.runs - second'.runs);
  }

  /**
   * end-innings: refused unless live with a current innings; closes it and
   * either opens innings 2 with the sides swapped or completes the match
   * with the decided result.
   */
  lemma EndInningsContract(m: MatchState)
    ensures m.status != Live ==> EndInnings(m) == Failure(NotLive)
    ensures m.status == Live && !HasCurrentInnings(m) ==> EndInnings(m) == Failure(NoCurrentInnings)
    ensures m.status == Live && HasCurrentInnings(m) ==> EndInnings(m).Success?
    ensures EndInnings(m).Success? ==>
      var s := EndInnings(m).value.state;
      var k := m.currentInnings - 1;
      var inn := m.innings[k];
      && k < |s.innings| && s.innings[k] == inn.(isCompleted := true)
      && (forall i :: 0 <= i < |m.innings| && i != k ==> s.innings[i] == m.innings[i])
      && s.batsmanStats == m.batsmanStats && s.bowlerStats == m.bowlerStats
      && s.commentary == m.commentary
      && s.(innings := m.innings, currentInnings := m.currentInnings, status := m.status,
            isLive := m.isLive, result := m.result) == m
      && (m.currentInnings == 1 ==>
            && s.currentInnings == 2 && s.status == Live && s.isLive == m.isLive && s.result == m.result
            && |s.innings| == |m.innings| + 1
            && Last(s.innings) == NewInnings(2, inn.bowlingTeam, inn.battingTeam)
            && EndInnings(m).value.events == [InningsChanged(2, s.innings[1].battingTeam)])
      && (m.currentInnings != 1 ==>
            && s.status == Completed && !s.isLive && |s.innings| == |m.innings|
            && s.currentInnings == m.currentInnings
            && s.result == Some(Decide(m.innings[0], m.innings[1]))
            && EndInnings(m).value.events == [MatchEnded(s.result.value.winner, s.result.value.winBy)])
  {
    if m.status == Live && HasCurrentInnings(m) {
      FinishShape(m);
      if m.currentInnings != 1 {
        var k := m.currentInnings - 1;
        var m1 := m.(innings := m.innings[k := m.innings[k].(isCompleted := true)]);
        assert Decide(m1.innings[0], m1.innings[1]) == Decide(m.innings[0], m.innings[1]);
      }
    }
  }

  /**
   * The automatic end of an innings after a ball: at ten wickets or once
   * currentOver reaches totalOvers the innings is completed; after
   * innings 1 innings 2 opens with the sides swapped (and no innings-change
   * event is sent), after any other the match is completed with the result.
   */
  lemma AddBallCompletion(m: MatchState, d: Delivery)
    requires AddBall(m, d).Success?
    ensures var st := AddBall(m, d).value;
      var s := st.state;
      var k := m.currentInnings - 1;
      var sc := Scored(m.innings[k], d);
      && s.(innings := m.innings, currentInnings := m.currentInnings, status := m.status,
            isLive := m.isLive, result := m.result, batsmanStats := m.batsmanStats,
            bowlerStats := m.bowlerStats, commentary := m.commentary) == m
      && (!InningsOver(sc, m.totalOvers) ==>
            && s.status == m.status && s.currentInnings == m.currentInnings && s.isLive == m.isLive
            && |s.innings| == |m.innings| && s.result == m.result
            && st.events == [BallUpdate(st.ball, s.commentary[0].text)])
      && (InningsOver(sc, m.totalOvers) && m.currentInnings == 1 ==>
            && s.innings[k].isCompleted && s.currentInnings == 2 && s.status == Live
            && s.isLive == m.isLive && s.result == m.result
            && |s.innings| == |m.innings| + 1
            && Last(s.innings) == NewInnings(2, sc.bowlingTeam, sc.battingTeam)
            && st.events == [BallUpdate(st.ball, s.commentary[0].text)])
      && (InningsOver(sc, m.totalOvers) && m.currentInnings != 1 ==>
            && s.innings[k].isCompleted && s.status == Completed && !s.isLive
            && s.currentInnings == m.currentInnings && m.result.Some?
            && s.result == Some(Decide(s.innings[0], s.innings[1]))
            && |st.events| == 2 && st.events[0] == MatchEnded(s.result.value.winner, s.result.value.winBy))
  {
  }

  /**
   * currentOver counts overs opened, so the innings ends on the first ball
   * of its last over: when the over before the last is full, the next ball
   * opens the last over and closes the innings with one ball in it.
   */
  lemma InningsEndsOnFirstBallOfLastOver(m: MatchState, d: Delivery)
    requires m.status == Live && m.currentInnings == 1 && |m.innings| >= 1
    requires WellFormed(m.innings[0])
    requires NeedsNewOver(m.innings[0]) && m.totalOvers == m.innings[0].currentOver + 1
    ensures AddBall(m, d).Success?
    ensures var inn' := AddBall(m, d).value.state.innings[0];
      && inn'.isCompleted && inn'.currentOver == m.totalOvers
      && |inn'.overs| == m.totalOvers && |Last(inn'.overs).balls| == 1
    ensures AddBall(m, d).value.state.currentInnings == 2
  {
    AddBallShape(m, d);
    AddBallCursor(m, d);
  }

  /**
   * The ball route cannot complete a match whose result object is absent
   * (the write into it throws before the save), while end-innings on the
   * same match creates the result and completes it.
   */
  lemma BallCannotCompleteWithoutResult(m: MatchState, d: Delivery)
    requires m.status == Live && m.currentInnings == 2 && |m.innings| >= 2 && m.result.None?
    requires InningsOver(Scored(m.innings[1], d), m.totalOvers)
    ensures AddBall(m, d) == Failure(ResultMissing)
    ensures EndInnings(m).Success? && EndInnings(m).value.state.status == Completed
    ensures EndInnings(m).value.state.result.Some?
  {
  }
}
