# Live ball-by-ball scoring of a cricket match

This project models the scoring core of a cricket live-scoring backend: the three
Express routes of `backend/routes/matches.js` that move a match through its life.

- `POST /:matchId/start` checks that the toss is set, makes the match live and opens
  innings 1. The toss winner's choice decides which side bats.
- `POST /:matchId/end-innings` closes the current innings. After innings 1 it opens
  innings 2 with the sides swapped. Otherwise it completes the match and decides the
  winner and the margin.
- `POST /:matchId/ball` records one delivery:
  - opens a new over when needed and builds the ball record;
  - moves the over/ball cursor and updates the over and innings totals and the extras tally;
  - finds or creates the striker's and the bowler's stat rows and credits them, including
    complete overs and maidens;
  - prepends a commentary entry;
  - closes the innings automatically at ten wickets or when the last over is reached.

The model has two layers.

- **Engine** (pure). Each route is a function from the loaded match document (`MatchState`)
  to either a `Step` or one of the route's 400 errors. A `Step` holds the state that is saved
  and the events broadcast to viewers. An error leaves the stored match untouched.
- **LiveMatch.Match** (imperative). A class whose fields are the document's fields. Its
  methods mutate them in the handler's order. Each method is proved to leave exactly the
  state and events that the Engine function describes.

What the routes promise is proved about the Engine functions in these modules:

- **Properties**: the route contracts, stat rows, commentary, and completion.
- **Invariants**: the innings cursor and running totals always agree with the recorded
  balls.
- **Scoring**, **Stats**, **Commentary** and **Text**: the per-ball arithmetic, the stat
  rows, the commentary text, and number/label rendering with read-back lemmas.

Two behaviours of the code differ from what cricket scoring would lead a reader to expect.
The model follows the code.

- **Innings length.** In cricket a two-over innings lasts twelve legal balls. In the code,
  `currentOver` counts overs *opened*, and the completion test `currentOver >= totalOvers`
  runs after the ball that opens the last over. So the innings ends on the first ball of
  its last over, here the seventh ball. `Properties.InningsEndsOnFirstBallOfLastOver`
  states this.
- **Missing result object.** The ball route writes into `match.result` without creating
  it. When that object is absent, a ball that would complete the match fails with a 400
  and saves nothing. End-innings creates the object first.
  `Properties.BallCannotCompleteWithoutResult` states this.

## Model

| member | source | states |
|---|---|---|
| Properties.StartContract | backend/routes/matches.js:66-88 | start fails (toss not set) exactly when the toss winner or decision is empty. Otherwise the match is live, `currentInnings` is 1, and one innings is appended: number 1, zero runs, wickets, cursor and extras, no overs. Every other field is untouched and one matchStarted event is sent. Team 1 bats exactly when it won the toss and chose to bat, and the other side bowls. |
| Properties.TossWinnerTwoBowlingStillBats | backend/routes/matches.js:78-79 | when team 2 wins the toss and chooses to bowl, team 2 still bats first and team 1 bowls |
| Properties.StartAgainAppends | backend/routes/matches.js:66-88 | start has no status guard. On a match that already has innings, it appends another innings 1 and points `currentInnings` back at the first innings. |
| Invariants.StartConsistent | backend/routes/matches.js:76-86 | start keeps every innings well formed: cursor and totals agree with the balls |
| LiveMatch.Match.Start | backend/routes/matches.js:59-107 | the handler's field updates leave exactly Engine.Start's state and events. On failure nothing changes and no event is sent. |
| Properties.EndInningsContract | backend/routes/matches.js:119-208 | end-innings fails with "not live" or "no current innings" exactly as guarded, and succeeds otherwise. On success it marks the current innings completed and touches no other innings, stat row or commentary. After innings 1 it opens innings 2 with the sides swapped and sends inningsChanged. Otherwise it completes the match, sets `isLive` false, stores the decided result and sends matchEnded with it, keeping `currentInnings`. Team names, toss, `totalOvers` and, after innings 1, `isLive` and the result are kept. |
| Properties.DecideRule | backend/routes/matches.js:179-188 | the second side wins exactly when it has more runs, by `10 - wickets` wickets. The first side wins exactly when it has more runs, by the run difference (at least 1). Equal runs are a tie, "Match tied". |
| Properties.FinishShape | backend/routes/matches.js:128-144 | closing an innings changes only its completion flag among the existing innings, and no stat row or commentary |
| Invariants.EndInningsConsistent | backend/routes/matches.js:128-144 | end-innings keeps every innings well formed |
| Invariants.FinishConsistent | backend/routes/matches.js:128-444 | closing the current innings, possibly appending innings 2, keeps every innings well formed |
| LiveMatch.Match.EndInnings | backend/routes/matches.js:110-214 | the handler, which creates a missing result object before deciding, leaves exactly Engine.EndInnings's state and events. On failure nothing changes. |
| LiveMatch.Match.CloseInnings | backend/routes/matches.js:128-188 | marks the innings completed, then either opens innings 2 or completes the match with the decided result. The new state is Engine.FinishInnings of the old one and no event is sent. |
| Properties.AddBallGuards | backend/routes/matches.js:229-243 | the ball route answers "not live", "no innings" and "no current innings" exactly under its guards, and succeeds only on a live match with a current innings. It fails with the missing-result error exactly when the ball would complete a second or later innings of a match without a result object. |
| Properties.AddBallShape | backend/routes/matches.js:245-406 | a ball changes only the current innings among the existing ones: it becomes the scored innings, marked completed when the innings is over. The stat tables become the credited ones, commentary gets the new entry at its head, the returned ball is the one built, and the last event announces it with the entry's text. |
| Properties.RecordedShape | backend/routes/matches.js:245-406 | recording a ball, before the completion check, replaces the current innings by the scored one and both stat tables and the commentary by their updated versions. It keeps the other innings, `totalOvers` and the result. |
| Properties.SettleShape | backend/routes/matches.js:408-480 | the completion check changes only the current innings' completion flag among the existing innings, keeps stat rows and commentary, returns the ball, and announces it as the last event |
| Properties.AddBallCursor | backend/routes/matches.js:245-296 | on a well-formed innings, a new over numbered `currentOver + 1` and bowled by the submitted bowler is opened exactly when there is no over or the latest holds six balls. `currentOver` grows by one exactly then. The ball lands in the latest over, earlier overs are untouched, and `currentBall` moves, wrapping at six, only on a legal ball. |
| Properties.ScoredCursorStep | backend/routes/matches.js:245-298 | the same cursor step for the scored innings, before any completion flag |
| Properties.ScoredShape | backend/routes/matches.js:261-298 | scoring appends the ball to the latest over, keeps the over's number and bowler and every earlier over, and moves `currentBall` by the legal-ball rule. It sets the crease to the submitted striker, non-striker and bowler, and keeps the innings' number, batting and bowling teams and completion flag. |
| Properties.ScoredAccounting | backend/routes/matches.js:269-312 | the ball's `batsmanRuns` are the runs unless it is a bye or leg-bye. Its extras are `1 + runs` for a wide or no-ball, the runs for a bye or leg-bye, else 0. Its number is one past the over's ball count. The over gains the runs and wicket, the innings gains runs plus extras and the wicket, and each extras counter gains its own amount. |
| Properties.InningsIncrementDoublesExtras | backend/routes/matches.js:278-302 | scoring a ball raises the innings total by `2·runs + 1` for a wide or no-ball, `2·runs` for a bye or leg-bye, and the runs otherwise: the runs are counted in both `runs` and `extras` |
| Properties.OneRunWideAddsThree | backend/routes/matches.js:278-361 | a one-run wide adds three to the innings and to the bowler's row, and one run but no ball faced to the striker's row |
| Scoring.MakeBall | backend/routes/matches.js:269-288 | the ball record carries its number, the runs, the flags, the batsman runs and extras as computed, the striker, non-striker, bowler and fielder as submitted. It has a wicket type exactly for a wicket with a non-blank type, and then the submitted one. |
| Scoring.LegalCount | backend/routes/matches.js:370-371 | the legal-ball count is at most the ball count, and equal to it exactly when every ball is legal |
| Stats.FindFirst | backend/routes/matches.js:315 | `find` by player name returns the first row with that name, or none when no row has it |
| Stats.EnsureRow | backend/routes/matches.js:315-326 | the rows are kept, and a fresh row for the name is appended exactly when none carries it. The appended row is the fresh one, and the row for the name then sits at `Slot`. |
| Properties.BatsmanRow | backend/routes/matches.js:315-343 | the striker's row is the first with that name, or is appended. It gains one ball faced on a legal ball. Runs, fours and sixes are credited unless the ball is a bye or leg-bye. On a credited dismissal it is marked out with type, bowler and a non-blank fielder; otherwise those are kept. Every other row is unchanged. |
| Properties.DismissalCreditedTogether | backend/routes/matches.js:336-363 | for a striker who was not out, the ball marks the striker's row out exactly when the bowler's row gains a wicket, and then with this ball's dismissal type and bowler |
| Properties.RunOutNotCredited | backend/routes/matches.js:298-363 | a run-out wicket adds one to the innings' wickets but leaves the striker's out flag and dismissal and the bowler's wickets unchanged |
| Properties.BowlerRow | backend/routes/matches.js:346-378 | the bowler's row is the first with that name, or is appended. It is charged runs plus extras, a wicket on a credited dismissal, and its wide or no-ball. It gains an over exactly when the latest over has six legal balls, and a maiden when that over is also run-free. Every other row is unchanged. |
| Properties.AddBallMaiden | backend/routes/matches.js:368-378 | on a well-formed innings, the latest over is flagged a maiden exactly when it holds six legal balls and no runs |
| Properties.AddBallCommentary | backend/routes/matches.js:386-406 | exactly one entry is prepended. It is labelled "currentOver.ballsInOver", which reads back as that pair and matches the ball's number. Its text is label, bowler "to" striker, then the outcome description. The ball update carries the same text. |
| Properties.OutcomeReadsBack | backend/routes/matches.js:387-400 | the description names the outcome unambiguously in the route's priority order (wicket, six, four, wide, no-ball, plain runs), and a plain-runs description reads back as the run count |
| Commentary.PlainRunsRoundTrip | backend/routes/matches.js:399 | " - N run(s)" reads back as N and ends in "s" exactly when N is not 1 |
| Text.LabelRoundTrip | backend/routes/matches.js:403 | the "over.ball" label reads back as exactly the pair it was written from |
| Text.ParseNatToString | backend/routes/matches.js:184 | a rendered natural number reads back as itself |
| Text.NatToStringInjective | backend/routes/matches.js:184 | different margins render differently |
| Properties.RunMarginReadsBack | backend/routes/matches.js:182-185 | two wins by runs whose `winBy` texts are equal have equal margins: the text names the margin |
| Properties.AddBallCompletion | backend/routes/matches.js:409-456 | team names, toss and `totalOvers` are always kept. When the scored innings is not over, status, `isLive`, `currentInnings`, innings count and result are kept and only the ball update is sent. When innings 1 is over, it is completed and innings 2 opens with the sides swapped, `isLive` and the result are kept, and no innings-change event is sent. When a later innings is over, the match is completed with the decided result and `currentInnings` is kept, and matchEnded is sent before the ball update. |
| Properties.InningsEndsOnFirstBallOfLastOver | backend/routes/matches.js:248-414 | when the over before the last is full, the next ball opens the last over and completes the innings with one ball in that over. The match moves to innings 2. |
| Properties.BallCannotCompleteWithoutResult | backend/routes/matches.js:426-444 | a ball that completes the second innings of a match without a result object fails. End-innings on the same match completes it with a result. |
| Invariants.ScoredWellFormed | backend/routes/matches.js:245-378 | scoring a ball on a well-formed innings leaves it well formed: cursor, over and innings totals, extras tally and maiden flags all agree with the balls |
| Invariants.AddBallConsistent | backend/routes/matches.js:245-444 | the ball route keeps every innings of the match well formed |
| LiveMatch.Match.AddBall | backend/routes/matches.js:217-487 | the handler answers its guards, records the ball and runs the completion check. It leaves exactly Engine.AddBall's state, ball and events, and on failure changes nothing. |
| LiveMatch.Match.FinishBall | backend/routes/matches.js:408-482 | writes back the recorded ball and runs the completion check, with the result of Engine's completion check. When the match would be completed without a result object it fails and saves nothing. |
| LiveMatch.Match.SettleBall | backend/routes/matches.js:408-480 | the completion check in place, with the broadcasts in the route's order |
| LiveMatch.RecordBall | backend/routes/matches.js:245-406 | the ball route's recording steps compute exactly Engine's recorded match and ball, changing only innings, stat tables and commentary |
| LiveMatch.OpenOver | backend/routes/matches.js:245-259 | opens a new over exactly as Engine.Opened describes |
| LiveMatch.ScoreInnings | backend/routes/matches.js:261-312 | builds the ball and updates the cursor, over and innings totals and extras as Engine's ScoreBall describes |
| LiveMatch.CreditStriker | backend/routes/matches.js:315-343 | the striker's row is found or created and credited as UpsertBatsman describes |
| LiveMatch.ChargeBowlerRow | backend/routes/matches.js:346-366 | the bowler's row is found or created and charged as UpsertBowler describes |
| LiveMatch.CloseOver | backend/routes/matches.js:368-378 | a complete over is credited to the bowler's row, with a maiden on the row and on the over when run-free. Otherwise nothing changes. |
| LiveMatch.CreditBowler | backend/routes/matches.js:346-378 | the bowler's row is charged and then credited its over, as BowlersAfter describes |
| LiveMatch.Announce | backend/routes/matches.js:386-406 | the commentary entry is Engine's EntryFor |
| Engine.Start | backend/routes/matches.js:59-107 | the start route as a function of the loaded match; its contract is Properties.StartContract |
| Engine.EndInnings | backend/routes/matches.js:110-214 | the end-innings route as a function of the loaded match; its contract is Properties.EndInningsContract |
| Engine.AddBall | backend/routes/matches.js:217-487 | the ball route as a function of the loaded match and the submitted delivery; its contracts are Properties.AddBallGuards, AddBallShape and AddBallCompletion |
| Engine.FinishInnings | backend/routes/matches.js:128-188 | closing the current innings. After innings 1 there is one more innings; otherwise the innings count is kept and at least two innings exist to decide from. |
| Engine.Settle | backend/routes/matches.js:408-444 | the ball route's completion check; its contract is Properties.SettleShape |
| Engine.Decide | backend/routes/matches.js:179-188 | the winner rule shared by both routes; its contract is Properties.DecideRule |
| Commentary.Outcome | backend/routes/matches.js:387-400 | the outcome description in the route's priority order; its contracts are Properties.OutcomeReadsBack and Commentary.PlainRunsRoundTrip |
| Text.IntToString | backend/routes/matches.js:184 | what a template literal prints for an integer: digits only for a non-negative one, a minus sign and digits otherwise |
| Text.IsJsSpace | backend/routes/matches.js:336 | the characters `trim()` removes: the ECMAScript WhiteSpace and LineTerminator code points |
| Text.IsBlank | backend/routes/matches.js:336 | `s.trim() === ''`: every character is one that `trim()` removes |
| Text.NonBlank | backend/routes/matches.js:286 | the guard `x && x.trim() !== ''` on an optional request field |
| Text.Truthy | backend/routes/matches.js:388-389 | JavaScript truthiness of an optional string: present and not empty |
| Text.Show | backend/routes/matches.js:388 | what a template literal prints for an optional string: the string, or "undefined" |
| Stats.CreditBatsman | backend/routes/matches.js:328-343 | the striker's row after a delivery; its contract is Properties.BatsmanRow |
| Stats.ChargeBowler | backend/routes/matches.js:361-366 | the bowler's row charged for a delivery; its contract is Properties.BowlerRow |

## Left out

- Loading and saving the document: `Match.findOne`, the 404 for an unknown match id, `match.save()`, and save failures.
  Routes act on a loaded `MatchState` (`LiveMatch.Match.Load`).
  Persistence is I/O.
- The document schema (`models/Match.js`) is not part of this model: its defaults, casts and validation.
  In particular, whether Mongoose supplies an empty `result` object is unknown.
  The model takes the result as absent unless it is stored.
- The other routes of `matches.js` (create, list, fetch, update, delete), logging, and the JSON responses.
- The bowler's economy rate (lines 380-383): floating-point division and `toFixed`.
- The commentary timestamp (line 405): the clock.
- Concurrent requests on the same match (read-modify-write races between handlers).
- Broadcast payloads: only the event kind and the fields the properties use are kept.
  The match id and the embedded document are dropped, and `io` is taken to be present.
- Request bodies arrive typed.
  Runs are an integer and the flags are booleans, so `runs || 0` and `flag || false` are the identity.
  Absent player names are not modelled.
  The wicket type and fielder are optional strings, so `${undefined}` prints "undefined".
- Runs are not validated by the source (negative runs are accepted), and the model does not add a check.
  The commentary lemmas assume non-negative runs.
- `matchEnded` in the ball route is emitted before the save (line 447 against line 459).
  The model emits it only for a ball whose save succeeds, because save failures are not modelled.
- The ball route's missing-result TypeError (line 436) is modelled as a 400 that saves nothing and sends no event.
  The in-memory mutations made before the throw are discarded with the document.
- Stats.EnsureRow, Stats.UpsertBatsman, Stats.UpsertBowler, LiveMatch.CreditStriker, LiveMatch.ChargeBowlerRow: these assume that the row object pushed on a first appearance (lines 325 and 358) is the array element credited afterwards (lines 328-343 and 361-375).
  If the schema declares these as subdocument arrays, Mongoose pushes a cast copy, and that ball's credits would land on the detached object; the document schema is not part of this model.
- JavaScript numbers are doubles, exact only up to 2^53, and `${n}` switches to exponent notation from 1e21. The model's integers are unbounded and always render as plain digits.
- Properties.StartContract: the toss rule is stated as an if-and-only-if only when the two team names differ.
  With equal names the sides cannot be told apart.
- Properties.DecideRule: stated for innings whose batting sides differ and are not named "tie".
  With equal names the winner string cannot tell the outcomes apart.
- Properties.DismissalCreditedTogether: stated for a striker whose row is not already out, because a row already marked out cannot show whether this ball dismissed the striker.
