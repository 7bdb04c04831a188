/**
 One round of Pig: turns are played while every banked score is below the
 winning score; the round then names the winner and resets the game for the
 next round. The players' input is a finite list of events, so a round either
 finishes or stops, mid-turn, waiting for more input.
 */
module GameLoop {
  import opened GameState
  import opened Turn

  /** The loop guard: nobody has reached the winning score yet. */
  predicate AllBelow(g: Game) {
    forall i :: 0 <= i < |g.players| ==> g.players[i].score < g.winningScore
  }

  /** The guard compares every score with the target, which is the same as
      comparing the highest one: it fails exactly when the would-be winner
      has reached the winning score. */
  lemma AllBelowIffWinnerBelow(g: Game)
    requires |g.players| >= 1
    ensures AllBelow(g) <==> g.players[Winner(g.players)].score < g.winningScore
  {
  }

  /** a is what is left of b after some of it has been read. */
  predicate IsSuffix<T(==)>(a: seq<T>, b: seq<T>) {
    |a| <= |b| && a == b[|b| - |a|..]
  }

  lemma IsSuffixTransitive<T>(a: seq<T>, b: seq<T>, c: seq<T>)
    requires IsSuffix(a, b) && IsSuffix(b, c)
    ensures IsSuffix(a, c)
  {
  }

  /** How a round ends. Won: `final` is the state when the guard failed,
      `winner` the index announced, `next` the state after the reset, `turns`
      the number of completed turns and `rest` the unread events. Stalled: the
      events ran out during a turn of the game `game`. */
  datatype RoundResult =
    | Won(final: Game, winner: nat, next: Game, turns: nat, rest: seq<Event>)
    | Stalled(game: Game, turnTotal: int)

  /** One call of play_game. */
  function PlayGame(g: Game, es: seq<Event>): (r: RoundResult)
    requires Valid(g)
    ensures r.Won? ==>
              && Valid(r.final) && ScoresGrew(g, r.final) && !AllBelow(r.final)
              && IsFirstMax(r.final.players, r.winner)
              && IsSuffix(r.rest, es)
    ensures r.Won? ==>
              && |r.next.players| == |g.players| && r.next.current == 0 && r.next.winningScore == g.winningScore
              && forall i :: 0 <= i < |g.players| ==> r.next.players[i] == Player(g.players[i].name, 0)
    ensures r.Won? && AllBelow(g) ==> r.turns >= 1 && |r.rest| < |es|
    ensures !AllBelow(g) ==> r.Won? && r.final == g && r.turns == 0 && r.rest == es
    ensures r.Stalled? ==> Valid(r.game) && ScoresGrew(g, r.game) && AllBelow(r.game) && r.turnTotal >= 0
    decreases |es|
  {
    if !AllBelow(g) then
      Won(g, Winner(g.players), ResetGame(g), 0, es)
    else
      match PlayTurn(g, es)
      case Done(g', rest) =>
        assert IsSuffix(rest, es);
        var r := PlayGame(g', rest);
        if r.Won? then
          ScoresGrewTransitive(g, g', r.final);
          IsSuffixTransitive(r.rest, rest, es);
          r.(turns := r.turns + 1)
        else
          ScoresGrewTransitive(g, g', r.game);
          r
      case AwaitingInput(t) => Stalled(g, t)
  }

  /** Every completed turn passed the turn on exactly once: the player to move
      at the end of a round is the one `turns` places on from the start. */
  lemma {:induction false} PlayGameTurnOrder(g: Game, es: seq<Event>)
    requires Valid(g)
    ensures PlayGame(g, es).Won? ==>
              PlayGame(g, es).final.current == SwitchTimes(g, PlayGame(g, es).turns).current
    decreases |es|
  {
    if AllBelow(g) && PlayGame(g, es).Won? {
      var t := PlayGameUnfold(g, es);
      PlayGameTurnOrder(t.game, t.rest);
      TurnOrderStep(g, t.game, PlayGame(t.game, t.rest), PlayGame(g, es));
    }
  }

  /** One step of the round: while the guard holds, a won round is one
      completed turn followed by the rest of the round. */
  lemma PlayGameUnfold(g: Game, es: seq<Event>) returns (t: TurnResult)
    requires Valid(g) && AllBelow(g) && PlayGame(g, es).Won?
    ensures t == PlayTurn(g, es) && t.Done? && |t.rest| < |es|
    ensures PlayGame(t.game, t.rest).Won?
    ensures PlayGame(g, es) == PlayGame(t.game, t.rest).(turns := PlayGame(t.game, t.rest).turns + 1)
  {
    t := PlayTurn(g, es);
  }

  /** Every completed turn passes the turn on exactly once, so one more turn
      at the front of a round means one more switch from the start. */
  lemma TurnOrderStep(g: Game, h: Game, r': RoundResult, r: RoundResult)
    requires 0 <= g.current < |g.players| && |h.players| == |g.players| && h.current == SwitchTurn(g).current
    requires r'.Won? && r'.final.current == SwitchTimes(h, r'.turns).current
    requires r == r'.(turns := r'.turns + 1)
    ensures r.final.current == SwitchTimes(g, r.turns).current
  {
    SwitchTimesShift(g, h, r'.turns);
  }

  /** Scores are compared only between turns, so a round that starts with
      everybody below the winning score is won by the player who just took the
      last turn, who alone has reached the winning score. In particular the
      winner's score is strictly higher than everyone else's: no tie arises. */
  lemma {:induction false} WinnerTookLastTurn(g: Game, es: seq<Event>)
    requires Valid(g) && AllBelow(g) && PlayGame(g, es).Won?
    ensures var r := PlayGame(g, es);
            && r.winner == PreviousPlayer(r.final.current, |r.final.players|)
            && r.final.players[r.winner].score >= r.final.winningScore
            && forall j :: 0 <= j < |r.final.players| && j != r.winner ==>
                 r.final.players[j].score < r.final.winningScore
    decreases |es|
  {
    var t := PlayGameUnfold(g, es);
    if AllBelow(t.game) {
      WinnerTookLastTurn(t.game, t.rest);
    } else {
      SwitchTurnUndoneByPrevious(g);
    }
  }

  /** A round played from a fresh game leaves a fresh game for the next round. */
  lemma RoundLeavesNewGame(numPlayers: int, es: seq<Event>)
    requires numPlayers >= 1
    ensures PlayGame(NewGame(numPlayers), es).Won? ==>
              PlayGame(NewGame(numPlayers), es).next == NewGame(numPlayers)
  {
    var r, b := PlayGame(NewGame(numPlayers), es), NewGame(numPlayers);
    if r.Won? {
      assert r.next.players == b.players;
    }
  }
}
