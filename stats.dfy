/**
 * The per-player stat rows of a match: find-or-insert by player name
 * (matches.js 315-326, 346-359) and the per-ball credits to the striker's
 * batting row (328-343) and the bowler's bowling row (361-366, 372-375).
 */
module Stats {
  import opened Wrappers
  import opened Text
  import opened Records
  import opened Scoring

  /** `rows.find(r => name(r) === key)`: the first row whose name is `key`. */
  function FindFirst<T>(rows: seq<T>, name: T -> string, key: string): (r: Option<nat>)
    ensures r.Some? ==> r.value < |rows| && name(rows[r.value]) == key
    ensures r.Some? ==> forall i :: 0 <= i < r.value ==> name(rows[i]) != key
    ensures r.None? ==> forall i :: 0 <= i < |rows| ==> name(rows[i]) != key
  {
    if |rows| == 0 then None
    else if name(rows[0]) == key then Some(0)
    else match FindFirst(rows[1..], name, key)
      case None => None
      case Some(k) => Some(k + 1)
  }

  /** Where the row for `key` sits once it has been found or appended. */
  function Slot<T>(rows: seq<T>, name: T -> string, key: string): nat {
    match FindFirst(rows, name, key)
    case Some(i) => i
    case None => |rows|
  }

  /** The rows with a fresh one appended for `key` when none carries that name yet. */
  function EnsureRow<T>(rows: seq<T>, name: T -> string, key: string, blank: T): (r: seq<T>)
    requires name(blank) == key
    ensures Slot(rows, name, key) < |r| && name(r[Slot(rows, name, key)]) == key
    ensures |rows| <= |r| <= |rows| + 1 && r[..|rows|] == rows
    ensures |r| == |rows| + 1 <==> forall i :: 0 <= i < |rows| ==> name(rows[i]) != key
    ensures |r| == |rows| + 1 ==> r[|rows|] == blank
  {
    if FindFirst(rows, name, key).Some? then rows else rows + [blank]
  }

  function BatsmanName(s: BatsmanStat): string { s.playerName }
  function BowlerName(s: BowlerStat): string { s.playerName }

  function FreshBatsman(name: string): BatsmanStat {
    BatsmanStat(name, 0, 0, 0, 0, false, None, None, None)
  }

  function FreshBowler(name: string): BowlerStat {
    BowlerStat(name, 0, 0, 0, 0, 0, 0)
  }

  /** The striker's row after facing a delivery. */
  function CreditBatsman(s: BatsmanStat, d: Delivery): BatsmanStat {
    var faced := if !d.isWide && !d.isNoBall then 1 else 0;
    var scored := !d.isBye && !d.isLegBye;
    var s1 := s.(ballsFaced := s.ballsFaced + faced,
                 runs := s.runs + (if scored then d.runs else 0),
                 fours := s.fours + (if scored && d.runs == 4 then 1 else 0),
                 sixes := s.sixes + (if scored && d.runs == 6 then 1 else 0));
    if CreditsDismissal(d) then
      s1.(isOut := true,
          dismissalType := d.wicketType,
          bowlerName := Some(d.bowler),
          fielderName := if NonBlank(d.fielder) then d.fielder else s1.fielderName)
    else s1
  }

  /** The bowler's row after bowling a delivery that carries `extras`. */
  function ChargeBowler(s: BowlerStat, d: Delivery, extras: int): BowlerStat {
    s.(runs := s.runs + d.runs + extras,
       wickets := s.wickets + (if CreditsDismissal(d) then 1 else 0),
       wides := s.wides + (if d.isWide then 1 else 0),
       noBalls := s.noBalls + (if d.isNoBall then 1 else 0))
  }

  /** The bowler's row after finishing an over of six legal balls, a maiden or not. */
  function CreditOver(s: BowlerStat, maiden: bool): BowlerStat {
    s.(overs := s.overs + 1, maidens := s.maidens + (if maiden then 1 else 0))
  }

  /** The batting rows after a delivery: the striker's row found or created, then credited. */
  function UpsertBatsman(rows: seq<BatsmanStat>, d: Delivery): (r: seq<BatsmanStat>)
    ensures |r| == |EnsureRow(rows, BatsmanName, d.striker, FreshBatsman(d.striker))|
  {
    var base := EnsureRow(rows, BatsmanName, d.striker, FreshBatsman(d.striker));
    var k := Slot(rows, BatsmanName, d.striker);
    base[k := CreditBatsman(base[k], d)]
  }

  /** The bowling rows after a delivery: the bowler's row found or created, then charged. */
  function UpsertBowler(rows: seq<BowlerStat>, d: Delivery, extras: int): (r: seq<BowlerStat>)
    ensures |r| == |EnsureRow(rows, BowlerName, d.bowler, FreshBowler(d.bowler))|
    ensures Slot(rows, BowlerName, d.bowler) < |r|
  {
    var base := EnsureRow(rows, BowlerName, d.bowler, FreshBowler(d.bowler));
    var k := Slot(rows, BowlerName, d.bowler);
    base[k := ChargeBowler(base[k], d, extras)]
  }
}
