/**
 * The arithmetic of one delivery and its effect on the innings it belongs
 * to: the batsman-credited runs and extras of a ball (matches.js 277-278),
 * opening a new over (245-259), advancing the ball cursor (290-296),
 * appending the ball and updating the innings totals and the extras tally
 * (298-312), and the completed-over test (368-371).
 */
module Scoring {
  import opened Wrappers
  import opened Text
  import opened Records

  /** Runs credited to the striker: none for a bye or a leg-bye. */
  function BatsmanRuns(d: Delivery): int {
    if d.isBye || d.isLegBye then 0 else d.runs
  }

  /** Extras recorded on the ball: the penalty run plus the runs for a wide or no-ball, the runs for a bye or leg-bye. */
  function ExtrasOf(d: Delivery): int {
    if d.isWide || d.isNoBall then 1 + d.runs
    else if d.isBye || d.isLegBye then d.runs
    else 0
  }

  /** The wicket type is kept on the ball only for a wicket with a non-blank type. */
  function KeptWicketType(d: Delivery): Option<string> {
    if d.isWicket && NonBlank(d.wicketType) then d.wicketType else None
  }

  /** A wicket that dismisses the striker in the stat table and is credited to the bowler: any non-blank type except a run out. */
  predicate CreditsDismissal(d: Delivery) {
    d.isWicket && NonBlank(d.wicketType) && d.wicketType.value != "run_out"
  }

  /** The ball record built for a delivery that becomes ball `number` of its over. */
  function MakeBall(number: int, d: Delivery): (b: Ball)
    ensures b.ballNumber == number && b.runs == d.runs
    ensures b.batsmanRuns == BatsmanRuns(d) && b.extras == ExtrasOf(d)
    ensures b.isWide == d.isWide && b.isNoBall == d.isNoBall && b.isWicket == d.isWicket
    ensures b.isBye == d.isBye && b.isLegBye == d.isLegBye
    ensures b.wicketType.Some? <==> d.isWicket && NonBlank(d.wicketType)
    ensures b.wicketType.Some? ==> b.wicketType == d.wicketType
    ensures b.striker == d.striker && b.nonStriker == d.nonStriker
    ensures b.bowler == d.bowler && b.fielder == d.fielder
  {
    Ball(number, d.runs, d.isWicket, d.isWide, d.isNoBall, d.isBye, d.isLegBye,
         BatsmanRuns(d), ExtrasOf(d), d.striker, d.nonStriker, d.bowler, d.fielder, KeptWicketType(d))
  }

  /** A legal delivery is neither a wide nor a no-ball. */
  predicate IsLegal(b: Ball) {
    !b.isWide && !b.isNoBall
  }

  /** `balls.filter(b => !b.isWide && !b.isNoBall).length` */
  function LegalCount(balls: seq<Ball>): (n: nat)
    ensures n <= |balls|
    ensures n == |balls| <==> forall i :: 0 <= i < |balls| ==> IsLegal(balls[i])
  {
    if |balls| == 0 then 0
    else LegalCount(balls[..|balls| - 1]) + (if IsLegal(balls[|balls| - 1]) then 1 else 0)
  }

  lemma LegalCountAppend(balls: seq<Ball>, b: Ball)
    ensures LegalCount(balls + [b]) == LegalCount(balls) + (if IsLegal(b) then 1 else 0)
  {
    assert (balls + [b])[..|balls|] == balls;
  }

  // Per-ball quantities whose running totals the innings and its overs keep.

  function Contribution(b: Ball): int { b.runs + b.extras }
  function RunsOf(b: Ball): int { b.runs }
  function WicketOf(b: Ball): int { if b.isWicket then 1 else 0 }
  function WideOf(b: Ball): int { if b.isWide then 1 else 0 }
  function NoBallOf(b: Ball): int { if b.isNoBall then 1 else 0 }
  function ByesOf(b: Ball): int { if b.isBye then b.runs else 0 }
  function LegByesOf(b: Ball): int { if b.isLegBye then b.runs else 0 }

  /** Sum of `f` over the balls of one over. */
  function Sum(balls: seq<Ball>, f: Ball -> int): int {
    if |balls| == 0 then 0 else Sum(balls[..|balls| - 1], f) + f(balls[|balls| - 1])
  }

  lemma SumAppend(balls: seq<Ball>, b: Ball, f: Ball -> int)
    ensures Sum(balls + [b], f) == Sum(balls, f) + f(b)
  {
    assert (balls + [b])[..|balls|] == balls;
  }

  /** Sum of `f` over every ball of every over. */
  function SumOvers(overs: seq<Over>, f: Ball -> int): int {
    if |overs| == 0 then 0 else SumOvers(overs[..|overs| - 1], f) + Sum(overs[|overs| - 1].balls, f)
  }

  lemma {:induction false} SumOversAppend(overs: seq<Over>, o: Over, f: Ball -> int)
    ensures SumOvers(overs + [o], f) == SumOvers(overs, f) + Sum(o.balls, f)
  {
    assert (overs + [o])[..|overs|] == overs;
  }

  /** Replacing the last over by one holding one more ball adds that ball's share. */
  lemma {:induction false} SumOversExtendLast(overs: seq<Over>, o: Over, b: Ball, f: Ball -> int)
    requires |overs| > 0 && o.balls == overs[|overs| - 1].balls + [b]
    ensures SumOvers(overs[|overs| - 1 := o], f) == SumOvers(overs, f) + f(b)
  {
    var n := |overs|;
    var updated := overs[n - 1 := o];
    assert updated[..n - 1] == overs[..n - 1];
    SumAppend(overs[n - 1].balls, b, f);
  }

  function Last<T>(s: seq<T>): T
    requires |s| > 0
  {
    s[|s| - 1]
  }

  /** The route opens a new over when there is none yet or the latest already holds six balls, legal or not. */
  predicate NeedsNewOver(inn: Innings) {
    |inn.overs| == 0 || |Last(inn.overs).balls| == 6
  }

  function EmptyOver(number: int, bowler: string): Over {
    Over(number, bowler, [], 0, 0, false)
  }

  /** Step 1 of a ball: open the next over if needed, numbering it `currentOver + 1`. */
  function OpenOverIfNeeded(inn: Innings, bowler: string): (r: Innings)
    ensures |r.overs| > 0
  {
    if NeedsNewOver(inn) then
      inn.(overs := inn.overs + [EmptyOver(inn.currentOver + 1, bowler)],
           currentOver := inn.currentOver + 1,
           currentBall := 0)
    else inn
  }

  /** The ball cursor after a delivery: a legal ball advances it, wrapping 6 to 0. */
  function AdvanceBall(currentBall: int, d: Delivery): int {
    if !d.isWide && !d.isNoBall then
      (if currentBall + 1 == 6 then 0 else currentBall + 1)
    else currentBall
  }

  /** The extras tally after a delivery. */
  function TallyExtras(e: Extras, d: Delivery): Extras {
    Extras(e.wides + (if d.isWide then 1 else 0),
           e.noBalls + (if d.isNoBall then 1 else 0),
           e.byes + (if d.isBye then d.runs else 0),
           e.legByes + (if d.isLegBye then d.runs else 0))
  }

  /** The latest over with the ball appended and its runs and wickets counted. */
  function WithBall(o: Over, d: Delivery, b: Ball): Over {
    o.(balls := o.balls + [b],
       runsInOver := o.runsInOver + d.runs,
       wicketsInOver := o.wicketsInOver + (if d.isWicket then 1 else 0))
  }

  /**
   * Steps 2 and 5-8 of a ball on an innings whose latest over is open:
   * record who is at the crease, move the cursor, append the ball to the
   * latest over and update the innings runs, wickets and extras.
   */
  function ScoreBall(inn: Innings, d: Delivery, b: Ball): (r: Innings)
    requires |inn.overs| > 0
    ensures |r.overs| == |inn.overs|
  {
    inn.(striker := Some(d.striker),
         nonStriker := Some(d.nonStriker),
         bowler := Some(d.bowler),
         currentBall := AdvanceBall(inn.currentBall, d),
         overs := inn.overs[|inn.overs| - 1 := WithBall(Last(inn.overs), d, b)],
         runs := inn.runs + d.runs + b.extras,
         wickets := inn.wickets + (if d.isWicket then 1 else 0),
         extras := TallyExtras(inn.extras, d))
  }

  /** An over the bowler is credited with: six balls, all of them legal. */
  predicate OverComplete(o: Over) {
    |o.balls| == 6 && LegalCount(o.balls) == 6
  }

  /** A completed over in which the over's own run count stayed at zero is a maiden. */
  predicate IsMaiden(o: Over) {
    OverComplete(o) && o.runsInOver == 0
  }

  /** Marks the latest over a maiden when it is one (matches.js 373-374). */
  function MarkMaiden(inn: Innings): (r: Innings)
    requires |inn.overs| > 0
    ensures |r.overs| == |inn.overs|
  {
    if IsMaiden(Last(inn.overs)) then
      inn.(overs := inn.overs[|inn.overs| - 1 := Last(inn.overs).(maidenOver := true)])
    else inn
  }

  /** The automatic end of an innings: ten wickets, or as many overs opened as the match allows. */
  predicate InningsOver(inn: Innings, totalOvers: int) {
    inn.wickets >= 10 || inn.currentOver >= totalOvers
  }
}
