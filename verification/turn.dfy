/**
 One player's turn. The console dialogue becomes a list of events: each
 prompt answer is a roll (carrying the value the die showed), a hold, or any
 other input. A turn reads events from an ephemeral turn total of 0 until the
 first roll of 1 (bust) or the first hold, then passes the turn on.
 */
module Turn {
  import opened GameState

  /** A value the six-sided die can show. */
  type DieFace = d: int | 1 <= d <= 6 witness 1

  datatype Event = Roll(face: DieFace) | Hold | Other

  /** What one event does to the turn in progress. */
  datatype Step = Continue(turnTotal: int) | Bust | Bank(points: int)

  /** The turn state machine for a single event. */
  function TurnStep(turnTotal: int, e: Event): (s: Step)
    ensures s.Bust? <==> e == Roll(1)
    ensures s.Bank? <==> e == Hold
    ensures s.Bank? ==> s.points == turnTotal
    ensures e.Roll? && e.face != 1 ==> s == Continue(turnTotal + e.face) && s.turnTotal > turnTotal
    ensures e == Other ==> s == Continue(turnTotal)
  {
    match e
    case Roll(d) => if d == 1 then Bust else Continue(turnTotal + d)
    case Hold => Bank(turnTotal)
    case Other => Continue(turnTotal)
  }

  /** Events that end a turn: a hold, or a roll showing 1. */
  predicate EndsTurn(e: Event) {
    e == Hold || e == Roll(1)
  }

  /** None of the first k events ends the turn. */
  predicate NoEndBefore(es: seq<Event>, k: int) {
    forall i :: 0 <= i < k && i < |es| ==> !EndsTurn(es[i])
  }

  /** The turn ends at event k (counting from 1): it is the first ending event. */
  predicate FirstEndAt(es: seq<Event>, k: int) {
    1 <= k <= |es| && EndsTurn(es[k - 1]) && NoEndBefore(es, k - 1)
  }

  /** The sum of the die values rolled in es; holds and other input add nothing. */
  function RollPoints(es: seq<Event>): (sum: int)
    ensures sum >= 0
    ensures sum == 0 <==> forall i :: 0 <= i < |es| ==> !es[i].Roll?
    decreases |es|
  {
    if |es| == 0 then 0
    else (if es[0].Roll? then es[0].face else 0) + RollPoints(es[1..])
  }

  /** How reading a list of events ends: a bust or a hold after `used` events,
      or the list ran out with the turn still going. */
  datatype TurnEnd = Busted(used: nat) | Banked(points: int, used: nat) | Unfinished(turnTotal: int)

  /** Runs the turn state machine over es from the given turn total. */
  function RunTurn(turnTotal: int, es: seq<Event>): (r: TurnEnd)
    ensures r.Busted? ==>
              FirstEndAt(es, r.used) && es[r.used - 1] == Roll(1)
    ensures r.Banked? ==>
              && FirstEndAt(es, r.used) && es[r.used - 1] == Hold
              && r.points == turnTotal + RollPoints(es[..r.used - 1])
    ensures r.Unfinished? ==> NoEndBefore(es, |es|) && r.turnTotal == turnTotal + RollPoints(es)
    decreases |es|
  {
    if |es| == 0 then Unfinished(turnTotal)
    else
      match TurnStep(turnTotal, es[0])
      case Bust => Busted(1)
      case Bank(p) => Banked(p, 1)
      case Continue(t) =>
        match RunTurn(t, es[1..])
        case Busted(k) => Busted(k + 1)
        case Banked(p, k) =>
          assert es[..k][1..] == es[1..][..k - 1];
          Banked(p, k + 1)
        case Unfinished(t') => Unfinished(t')
  }

  /** The converse of RunTurn's contract: the turn ends exactly at the first
      ending event, banking the rolls before it on a hold. */
  lemma RunTurnStopsAtFirstEnd(turnTotal: int, es: seq<Event>, k: int)
    requires FirstEndAt(es, k)
    ensures es[k - 1] == Hold ==> RunTurn(turnTotal, es) == Banked(turnTotal + RollPoints(es[..k - 1]), k)
    ensures es[k - 1] == Roll(1) ==> RunTurn(turnTotal, es) == Busted(k)
  {
  }

  /** Input that is neither roll nor hold is skipped without any effect. */
  lemma OtherIsIgnored(turnTotal: int, es: seq<Event>)
    ensures RunTurn(turnTotal, [Other] + es) ==
              match RunTurn(turnTotal, es)
              case Busted(k) => Busted(k + 1)
              case Banked(p, k) => Banked(p, k + 1)
              case Unfinished(t) => Unfinished(t)
  {
  }

  /** A turn's outcome: completed, leaving the updated game and the unread
      events, or still waiting for input when the events ran out. */
  datatype TurnResult = Done(game: Game, rest: seq<Event>) | AwaitingInput(turnTotal: int)

  /** One call of play_turn: read events from a turn total of 0 until a bust or
      hold, bank on a hold, and pass the turn on exactly once. */
  function PlayTurn(g: Game, es: seq<Event>): (r: TurnResult)
    requires Valid(g)
    ensures r.Done? <==> !NoEndBefore(es, |es|)
    ensures r.AwaitingInput? ==> r.turnTotal == RollPoints(es)
    ensures r.Done? ==>
              var k := |es| - |r.rest|;
              && FirstEndAt(es, k) && r.rest == es[k..]
              && Valid(r.game) && ScoresGrew(g, r.game)
              && r.game.current == SwitchTurn(g).current
              && (forall i :: 0 <= i < |g.players| && i != g.current ==> r.game.players[i] == g.players[i])
              && r.game.players[g.current].score ==
                   g.players[g.current].score + (if es[k - 1] == Hold then RollPoints(es[..k - 1]) else 0)
  {
    match RunTurn(0, es)
    case Busted(k) => Done(SwitchTurn(g), es[k..])
    case Banked(p, k) => Done(SwitchTurn(BankPoints(g, p)), es[k..])
    case Unfinished(t) => AwaitingInput(t)
  }

  /** Holding when nothing has been rolled in the turn (at most unrecognised
      input before the hold) banks a turn total of 0: every score stays as it
      was and the turn just passes on. */
  lemma HoldWithNothingRolled(g: Game, es: seq<Event>, k: int)
    requires Valid(g) && FirstEndAt(es, k) && es[k - 1] == Hold
    requires forall i :: 0 <= i < k - 1 ==> !es[i].Roll?
    ensures PlayTurn(g, es) == Done(SwitchTurn(g), es[k..])
  {
    RunTurnStopsAtFirstEnd(0, es, k);
    assert BankPoints(g, 0) == g;
  }

  /** Two players: rolls of 5, 4 and 1 lose the turn total of 9; the first
      player keeps 0 and the second player is to move. */
  lemma ExampleBustTurn()
    ensures PlayTurn(NewGame(2), [Roll(5), Roll(4), Roll(1)]) == Done(SwitchTurn(NewGame(2)), [])
    ensures SwitchTurn(NewGame(2)).current == 1
  {
  }

  /** Two players: rolls of 6 and 6 and a hold bank 12 for the first player. */
  lemma ExampleHoldTurn()
    ensures var r := PlayTurn(NewGame(2), [Roll(6), Roll(6), Hold]);
            r.Done? && r.game.players[0].score == 12 && r.game.players[1].score == 0
            && r.game.current == 1 && r.rest == []
  {
  }
}
