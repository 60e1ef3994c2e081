/**
 * The commentary line written for every ball (matches.js 386-406): an
 * "over.ball" label, who bowled to whom, and a description chosen in the
 * order wicket, six, four, wide, no-ball, plain runs.
 */
module Commentary {
  import opened Wrappers
  import opened Text
  import opened Records

  /** The description that follows the "bowler to striker" part. */
  function Outcome(d: Delivery): string {
    if d.isWicket then
      " - WICKET! " + d.striker + " is " + Show(d.wicketType)
      + (if Truthy(d.fielder) then " by " + d.fielder.value else "")
    else if d.runs == 6 then " - SIX! What a shot!"
    else if d.runs == 4 then " - FOUR! Beautiful boundary"
    else if d.isWide then " - Wide ball"
    else if d.isNoBall then " - No ball"
    else " - " + IntToString(d.runs) + " run" + (if d.runs != 1 then "s" else "")
  }

  /** The full text of the entry for ball `ball` of over `over`. */
  function Line(over: int, ball: int, d: Delivery): string {
    Label(over, ball) + " " + d.bowler + " to " + d.striker + Outcome(d)
  }

  function Entry(over: int, ball: int, d: Delivery): CommentaryEntry {
    CommentaryEntry(Label(over, ball), Line(over, ball, d))
  }

  /** The plain-runs description, " - N run" or " - N runs", read back. */
  function ParsePlainRuns(s: string): Option<nat> {
    if |s| >= 7 && s[..3] == " - " && s[|s| - 4..] == " run"
       && AllDigits(s[3..|s| - 4]) && |s[3..|s| - 4]| > 0
    then Some(ParseNat(s[3..|s| - 4]))
    else if |s| >= 8 && s[..3] == " - " && s[|s| - 5..] == " runs"
       && AllDigits(s[3..|s| - 5]) && |s[3..|s| - 5]| > 0
    then Some(ParseNat(s[3..|s| - 5]))
    else None
  }

  /**
   * For a delivery that is no wicket, boundary, wide or no-ball, the
   * description states the run count, which reads back exactly, and says
   * "run" rather than "runs" exactly when it is 1.
   */
  lemma PlainRunsRoundTrip(d: Delivery)
    requires !d.isWicket && d.runs != 6 && d.runs != 4 && !d.isWide && !d.isNoBall
    requires d.runs >= 0
    ensures ParsePlainRuns(Outcome(d)) == Some(d.runs)
    ensures (Outcome(d)[|Outcome(d)| - 1] == 's') <==> d.runs != 1
  {
    var n := NatToString(d.runs);
    var s := Outcome(d);
    ParseNatToString(d.runs);
    if d.runs == 1 {
      assert s == " - " + n + " run";
      assert s[3..|s| - 4] == n;
    } else {
      assert s == " - " + n + " runs";
      assert s[|s| - 4..] == "runs" && s[|s| - 4] != ' ';
      assert s[3..|s| - 5] == n;
    }
  }
}
