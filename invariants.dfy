/**
 * What every innings built only by the start, end-innings and ball routes
 * satisfies: the over/ball cursor agrees with the over list, and every
 * running total (innings runs, wickets, extras tally, per-over runs and
 * wickets, maiden flags) equals the corresponding sum over the recorded
 * balls. The ball route keeps both; new innings start with both.
 */
module Invariants {
  import opened Wrappers
  import opened Records
  import opened Scoring
  import opened Engine

  /**
   * The cursor: one over per over opened, numbered from 1, every over but
   * the latest holding exactly six balls, none more than six, and
   * `currentBall` the count of legal balls in the latest over, modulo six.
   */
  predicate CursorOk(inn: Innings) {
    && |inn.overs| == inn.currentOver
    && (forall i :: 0 <= i < |inn.overs| ==>
          inn.overs[i].overNumber == i + 1 && 1 <= |inn.overs[i].balls| <= 6)
    && (forall i :: 0 <= i < |inn.overs| - 1 ==> |inn.overs[i].balls| == 6)
    && 0 <= inn.currentBall < 6
    && inn.currentBall == (if |inn.overs| == 0 then 0 else LegalCount(Last(inn.overs).balls) % 6)
  }

  /** Each over's own totals and maiden flag agree with its balls. */
  predicate OverLedgerOk(o: Over) {
    && o.runsInOver == Sum(o.balls, RunsOf)
    && o.wicketsInOver == Sum(o.balls, WicketOf)
    && (o.maidenOver <==> IsMaiden(o))
  }

  /** The innings totals agree with its balls: every ball's runs plus extras counted once. */
  predicate LedgerOk(inn: Innings) {
    && inn.runs == SumOvers(inn.overs, Contribution)
    && inn.wickets == SumOvers(inn.overs, WicketOf)
    && inn.extras == Extras(SumOvers(inn.overs, WideOf), SumOvers(inn.overs, NoBallOf),
                            SumOvers(inn.overs, ByesOf), SumOvers(inn.overs, LegByesOf))
    && (forall i :: 0 <= i < |inn.overs| ==> OverLedgerOk(inn.overs[i]))
  }

  predicate WellFormed(inn: Innings) {
    CursorOk(inn) && LedgerOk(inn)
  }

  /** Every innings of the match is well formed. */
  predicate Consistent(m: MatchState) {
    forall i :: 0 <= i < |m.innings| ==> WellFormed(m.innings[i])
  }

  lemma NewInningsWellFormed(number: int, batting: string, bowling: string)
    ensures WellFormed(NewInnings(number, batting, bowling))
  {
  }

  /** The cursor between opening the over and scoring the ball: the latest over has room. */
  predicate ReadyCursor(inn: Innings) {
    && |inn.overs| == inn.currentOver && |inn.overs| > 0
    && (forall i :: 0 <= i < |inn.overs| ==> inn.overs[i].overNumber == i + 1)
    && (forall i :: 0 <= i < |inn.overs| - 1 ==> 1 <= |inn.overs[i].balls| == 6)
    && |Last(inn.overs).balls| <= 5
    && inn.currentBall == LegalCount(Last(inn.overs).balls)
  }

  lemma OpenedReady(inn: Innings, d: Delivery)
    requires CursorOk(inn)
    ensures ReadyCursor(Opened(inn, d))
  {
    var o := Opened(inn, d);
    if !NeedsNewOver(inn) {
      assert o == inn;
      var lc := LegalCount(Last(inn.overs).balls);
      assert lc <= |Last(inn.overs).balls| <= 5;
    }
  }

  lemma OpenedLedger(inn: Innings, d: Delivery)
    requires WellFormed(inn)
    ensures LedgerOk(Opened(inn, d))
    ensures !Last(Opened(inn, d).overs).maidenOver
  {
    var o := Opened(inn, d);
    if NeedsNewOver(inn) {
      var e := EmptyOver(inn.currentOver + 1, d.bowler);
      assert o.overs == inn.overs + [e];
      forall f: Ball -> int ensures SumOvers(o.overs, f) == SumOvers(inn.overs, f) {
        SumOversAppend(inn.overs, e, f);
      }
      assert OverLedgerOk(e);
    } else {
      assert o == inn;
      assert |Last(inn.overs).balls| < 6;
      assert OverLedgerOk(Last(inn.overs));
    }
  }

  /** Scoring a ball on a ready innings leaves a correct cursor. */
  lemma ScoredCursor(o: Innings, d: Delivery, b: Ball)
    requires ReadyCursor(o)
    requires b.isWide == d.isWide && b.isNoBall == d.isNoBall
    ensures CursorOk(MarkMaiden(ScoreBall(o, d, b)))
  {
    var last := Last(o.overs);
    ScoredOvers(o, d, b);
    AdvanceCountsLegal(o.currentBall, last.balls, b, d);
  }

  /** Moving the cursor on a ball agrees with counting the legal balls of the over it joins. */
  lemma AdvanceCountsLegal(cursor: int, balls: seq<Ball>, b: Ball, d: Delivery)
    requires cursor == LegalCount(balls) && |balls| <= 5
    requires b.isWide == d.isWide && b.isNoBall == d.isNoBall
    ensures 0 <= AdvanceBall(cursor, d) < 6
    ensures AdvanceBall(cursor, d) == LegalCount(balls + [b]) % 6
  {
    LegalCountAppend(balls, b);
    var n := LegalCount(balls);
    assert n <= 5;
    if IsLegal(b) {
      assert AdvanceBall(cursor, d) == if n == 5 then 0 else n + 1;
      assert LegalCount(balls + [b]) == n + 1;
      WrapsAtSix(n + 1);
    } else {
      assert AdvanceBall(cursor, d) == n;
      assert LegalCount(balls + [b]) == n;
      WrapsAtSix(n);
    }
  }

  lemma WrapsAtSix(x: int)
    requires 0 <= x <= 6
    ensures x % 6 == if x == 6 then 0 else x
  {
  }

  /** What scoring and flagging do to the over list: earlier overs kept, the latest one ball longer. */
  lemma ScoredOvers(o: Innings, d: Delivery, b: Ball)
    requires |o.overs| > 0
    ensures var r := MarkMaiden(ScoreBall(o, d, b));
      var n := |o.overs|;
      && |r.overs| == n
      && (forall i :: 0 <= i < n - 1 ==> r.overs[i] == o.overs[i])
      && Last(r.overs).balls == Last(o.overs).balls + [b]
      && Last(r.overs).overNumber == Last(o.overs).overNumber
      && r.currentOver == o.currentOver && r.currentBall == AdvanceBall(o.currentBall, d)
  {
  }

  /** Scoring a ball on a ready innings whose totals are right keeps them right. */
  lemma ScoredLedger(o: Innings, d: Delivery, b: Ball)
    requires ReadyCursor(o) && LedgerOk(o) && !Last(o.overs).maidenOver
    requires b.runs == d.runs && b.isWicket == d.isWicket
    requires b.isWide == d.isWide && b.isNoBall == d.isNoBall
    requires b.isBye == d.isBye && b.isLegBye == d.isLegBye
    ensures LedgerOk(MarkMaiden(ScoreBall(o, d, b)))
  {
    var s := ScoreBall(o, d, b);
    ScoredTotals(o, d, b);
    ScoredOverLedger(o, d, b);
    ScoredOvers(o, d, b);
    MarkMaidenSums(s, Contribution);
    MarkMaidenSums(s, WicketOf);
    MarkMaidenSums(s, WideOf);
    MarkMaidenSums(s, NoBallOf);
    MarkMaidenSums(s, ByesOf);
    MarkMaidenSums(s, LegByesOf);
  }

  /** The innings totals after a ball are the sums over the balls once the ball is appended. */
  lemma ScoredTotals(o: Innings, d: Delivery, b: Ball)
    requires |o.overs| > 0 && LedgerOk(o)
    requires b.runs == d.runs && b.isWicket == d.isWicket
    requires b.isWide == d.isWide && b.isNoBall == d.isNoBall
    requires b.isBye == d.isBye && b.isLegBye == d.isLegBye
    ensures var s := ScoreBall(o, d, b);
      && s.runs == SumOvers(s.overs, Contribution) && s.wickets == SumOvers(s.overs, WicketOf)
      && s.extras == Extras(SumOvers(s.overs, WideOf), SumOvers(s.overs, NoBallOf),
                            SumOvers(s.overs, ByesOf), SumOvers(s.overs, LegByesOf))
  {
    var w := WithBall(Last(o.overs), d, b);
    assert ScoreBall(o, d, b).overs == o.overs[|o.overs| - 1 := w];
    SumOversExtendLast(o.overs, w, b, Contribution);
    SumOversExtendLast(o.overs, w, b, WicketOf);
    SumOversExtendLast(o.overs, w, b, WideOf);
    SumOversExtendLast(o.overs, w, b, NoBallOf);
    SumOversExtendLast(o.overs, w, b, ByesOf);
    SumOversExtendLast(o.overs, w, b, LegByesOf);
  }

  /** The over a ball lands in keeps its own totals and maiden flag right, given it had room and no flag. */
  lemma ScoredOverLedger(o: Innings, d: Delivery, b: Ball)
    requires |o.overs| > 0 && |Last(o.overs).balls| <= 5
    requires OverLedgerOk(Last(o.overs)) && !Last(o.overs).maidenOver
    requires b.runs == d.runs && b.isWicket == d.isWicket
    ensures OverLedgerOk(Last(MarkMaiden(ScoreBall(o, d, b)).overs))
  {
    var last := Last(o.overs);
    var w := WithBall(last, d, b);
    SumAppend(last.balls, b, RunsOf);
    SumAppend(last.balls, b, WicketOf);
    var lastR := Last(MarkMaiden(ScoreBall(o, d, b)).overs);
    assert lastR.balls == w.balls && lastR.runsInOver == w.runsInOver && lastR.wicketsInOver == w.wicketsInOver;
  }

  /** Flagging a maiden changes no ball, so no sum. */
  lemma MarkMaidenSums(s: Innings, f: Ball -> int)
    requires |s.overs| > 0
    ensures SumOvers(MarkMaiden(s).overs, f) == SumOvers(s.overs, f)
  {
    var n := |s.overs|;
    var r := MarkMaiden(s);
    if IsMaiden(Last(s.overs)) {
      assert r.overs[..n - 1] == s.overs[..n - 1];
    } else {
      assert r == s;
    }
  }

  /** The innings a ball is scored on stays well formed. */
  lemma ScoredWellFormed(inn: Innings, d: Delivery)
    requires WellFormed(inn)
    ensures WellFormed(Scored(inn, d))
  {
    var o := Opened(inn, d);
    OpenedReady(inn, d);
    OpenedLedger(inn, d);
    ScoredCursor(o, d, BallFor(inn, d));
    ScoredLedger(o, d, BallFor(inn, d));
  }

  /** Closing an innings (or completing the match) keeps every innings well formed. */
  lemma FinishConsistent(m: MatchState)
    requires HasCurrentInnings(m) && Consistent(m)
    ensures Consistent(FinishInnings(m))
  {
    var k := m.currentInnings - 1;
    var closed := m.innings[k].(isCompleted := true);
    var t := m.innings[k := closed];
    ClosedWellFormed(m.innings[k]);
    UpdateWellFormed(m.innings, k, closed, t);
    if m.currentInnings == 1 {
      var second := NewInnings(2, closed.bowlingTeam, closed.battingTeam);
      NewInningsWellFormed(2, closed.bowlingTeam, closed.battingTeam);
      assert FinishInnings(m).innings == t + [second];
      AppendWellFormed(t, second);
    } else {
      assert FinishInnings(m).innings == t;
    }
  }

  /** Marking an innings completed touches neither its cursor nor its ledger. */
  lemma ClosedWellFormed(inn: Innings)
    requires WellFormed(inn)
    ensures WellFormed(inn.(isCompleted := true))
  {
  }

  lemma AppendWellFormed(s: seq<Innings>, inn: Innings)
    requires WellFormed(inn)
    requires forall i :: 0 <= i < |s| ==> WellFormed(s[i])
    ensures forall i :: 0 <= i < |s + [inn]| ==> WellFormed((s + [inn])[i])
  {
  }

  /** start keeps every innings well formed. */
  lemma StartConsistent(m: MatchState)
    requires Start(m).Success?
    ensures Consistent(m) ==> Consistent(Start(m).value.state)
  {
    NewInningsWellFormed(1, FirstBatting(m), FirstBowling(m));
  }

  /** end-innings keeps every innings well formed. */
  lemma EndInningsConsistent(m: MatchState)
    requires EndInnings(m).Success?
    ensures Consistent(m) ==> Consistent(EndInnings(m).value.state)
  {
    if Consistent(m) {
      FinishConsistent(m);
    }
  }

  /** The ball route keeps every innings well formed. */
  lemma AddBallConsistent(m: MatchState, d: Delivery)
    requires AddBall(m, d).Success?
    ensures Consistent(m) ==> Consistent(AddBall(m, d).value.state)
  {
    if Consistent(m) {
      AddBallKeeps(m, d);
    }
  }

  lemma AddBallKeeps(m: MatchState, d: Delivery)
    requires Consistent(m) && AddBall(m, d).Success?
    ensures Consistent(AddBall(m, d).value.state)
  {
    var k := m.currentInnings - 1;
    var ball := BallFor(m.innings[k], d);
    assert AddBall(m, d) == Settle(Recorded(m, d), ball);
    ScoredWellFormed(m.innings[k], d);
    RecordedConsistent(m, d);
    SettleConsistent(Recorded(m, d), ball);
  }

  /** Recording a well-formed ball on a consistent match leaves it consistent. */
  lemma RecordedConsistent(m: MatchState, d: Delivery)
    requires HasCurrentInnings(m) && Consistent(m)
    requires WellFormed(Scored(m.innings[m.currentInnings - 1], d))
    ensures Consistent(Recorded(m, d))
  {
    var k := m.currentInnings - 1;
    RecordedInnings(m, d);
    UpdateWellFormed(m.innings, k, Scored(m.innings[k], d), m.innings[k := Scored(m.innings[k], d)]);
  }

  /** Recording a ball replaces the current innings by the scored one and no other. */
  lemma RecordedInnings(m: MatchState, d: Delivery)
    requires HasCurrentInnings(m)
    ensures Recorded(m, d).innings == m.innings[m.currentInnings - 1 := Scored(m.innings[m.currentInnings - 1], d)]
  {
    RecordedUnfolds(m, d);
    RecordedWithParts(m, d, Scored(m.innings[m.currentInnings - 1], d));
  }

  lemma UpdateWellFormed(s: seq<Innings>, k: int, inn: Innings, t: seq<Innings>)
    requires 0 <= k < |s| && WellFormed(inn) && t == s[k := inn]
    requires forall i :: 0 <= i < |s| ==> WellFormed(s[i])
    ensures forall i :: 0 <= i < |t| ==> WellFormed(t[i])
  {
  }

  /** The completion check keeps a consistent match consistent. */
  lemma SettleConsistent(r: MatchState, ball: Ball)
    requires HasCurrentInnings(r) && |r.commentary| > 0 && Consistent(r)
    requires Settle(r, ball).Success?
    ensures Consistent(Settle(r, ball).value.state)
  {
    if InningsOver(r.innings[r.currentInnings - 1], r.totalOvers) {
      FinishConsistent(r);
    }
  }
}
