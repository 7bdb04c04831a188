/**
 The state of a game of Pig: the players with their banked scores, the index
 of the player whose turn it is, and the score that wins. This module holds
 the operations on that state that do not depend on dice or commands:
 construction, passing the turn on, banking points, choosing the winner and
 resetting for a new round.
 */
module GameState {
  import PlayerNames

  /** The score that ends a game; fixed by the constructor. */
  const WinningScore: int := 100

  datatype Player = Player(name: string, score: int)

  /** Clears a player's banked score for a new round. */
  function ResetScore(p: Player): (q: Player)
    ensures q.name == p.name && q.score == 0
  {
    p.(score := 0)
  }

  lemma ResetScoreIdempotent(p: Player)
    ensures ResetScore(ResetScore(p)) == ResetScore(p)
  {
  }

  datatype Game = Game(players: seq<Player>, current: int, winningScore: int)

  /** What every reachable game with at least one player satisfies: the turn
      index names a player and no banked score is negative. */
  predicate Valid(g: Game) {
    && |g.players| >= 1
    && 0 <= g.current < |g.players|
    && forall i :: 0 <= i < |g.players| ==> g.players[i].score >= 0
  }

  /** The roster a game keeps from one turn to the next and across resets:
      the same number of players, with the same names, and the same target. */
  predicate SameRoster(a: Game, b: Game) {
    && |a.players| == |b.players|
    && a.winningScore == b.winningScore
    && forall i :: 0 <= i < |a.players| ==> a.players[i].name == b.players[i].name
  }

  /** b is a later state of the same round as a: same roster, and no banked
      score went down. */
  predicate ScoresGrew(a: Game, b: Game) {
    && SameRoster(a, b)
    && forall i :: 0 <= i < |a.players| ==> a.players[i].score <= b.players[i].score
  }

  lemma ScoresGrewTransitive(a: Game, b: Game, c: Game)
    requires ScoresGrew(a, b) && ScoresGrew(b, c)
    ensures ScoresGrew(a, c)
  {
  }

  /** The number of players a constructor argument yields: Python's range
      over a non-positive count is empty. */
  function PlayerCount(numPlayers: int): (n: nat)
    ensures numPlayers >= 1 ==> n == numPlayers
    ensures numPlayers < 1 ==> n == 0
  {
    if numPlayers > 0 then numPlayers else 0
  }

  /** A fresh game: players "Player 1" .. "Player n" with score 0, the first
      player to move, and the fixed winning score. The constructor does not
      reject a non-positive count; such a game is simply not Valid. */
  function NewGame(numPlayers: int): (g: Game)
    ensures |g.players| == PlayerCount(numPlayers)
    ensures forall i :: 0 <= i < |g.players| ==>
              g.players[i].name == PlayerNames.PlayerName(i) && g.players[i].score == 0
    ensures g.current == 0 && g.winningScore == WinningScore
    ensures Valid(g) <==> numPlayers >= 1
  {
    Game(seq(PlayerCount(numPlayers), i requires 0 <= i => Player(PlayerNames.PlayerName(i), 0)),
         0, WinningScore)
  }

  /** No two players of a fresh game share a name. */
  lemma NewGameNamesDistinct(numPlayers: int, i: int, j: int)
    requires 0 <= i < PlayerCount(numPlayers) && 0 <= j < PlayerCount(numPlayers)
    ensures NewGame(numPlayers).players[i].name == NewGame(numPlayers).players[j].name <==> i == j
  {
    PlayerNames.PlayerNamesDistinct(i, j);
  }

  /** Passes the turn to the next player, wrapping from the last to the
      first. The index is always in range in the program, where this is
      `(i + 1) % n`; SwitchTurnIsModulo shows the two agree. */
  function SwitchTurn(g: Game): (r: Game)
    requires 0 <= g.current < |g.players|
    ensures r.players == g.players && r.winningScore == g.winningScore
    ensures 0 <= r.current < |g.players|
    ensures g.current < |g.players| - 1 ==> r.current == g.current + 1
    ensures g.current == |g.players| - 1 ==> r.current == 0
  {
    g.(current := if g.current == |g.players| - 1 then 0 else g.current + 1)
  }

  /** The turn index advances as `(i + 1) % n`. Python's % floors and Dafny's
      is Euclidean; they agree since n is positive. */
  lemma SwitchTurnIsModulo(g: Game)
    requires 0 <= g.current < |g.players|
    ensures SwitchTurn(g).current == (g.current + 1) % |g.players|
  {
  }

  /** The player whose turn came just before index i. */
  function PreviousPlayer(i: int, n: int): (p: int)
    requires 0 <= i < n
    ensures 0 <= p < n
  {
    if i == 0 then n - 1 else i - 1
  }

  lemma SwitchTurnUndoneByPrevious(g: Game)
    requires Valid(g)
    ensures PreviousPlayer(SwitchTurn(g).current, |g.players|) == g.current
  {
  }

  /** The game after k completed turns, looking only at the turn index. */
  function SwitchTimes(g: Game, k: nat): (r: Game)
    requires 0 <= g.current < |g.players|
    ensures r.players == g.players && r.winningScore == g.winningScore
    ensures 0 <= r.current < |g.players|
    decreases k
  {
    if k == 0 then g else SwitchTurn(SwitchTimes(g, k - 1))
  }

  /** After k <= n turns the index has moved k places round the table,
      wrapping once past the last player. */
  lemma {:induction false} SwitchTimesCurrent(g: Game, k: nat)
    requires Valid(g) && k <= |g.players|
    ensures SwitchTimes(g, k).current ==
              if g.current + k < |g.players| then g.current + k else g.current + k - |g.players|
    decreases k
  {
    if k > 0 {
      SwitchTimesCurrent(g, k - 1);
    }
  }

  /** Counting turns from the state one switch later gives the same index. */
  lemma {:induction false} SwitchTimesShift(g: Game, h: Game, k: nat)
    requires 0 <= g.current < |g.players| && |h.players| == |g.players|
    requires h.current == SwitchTurn(g).current
    ensures SwitchTimes(g, k + 1).current == SwitchTimes(h, k).current
    decreases k
  {
    if k > 0 {
      SwitchTimesShift(g, h, k - 1);
    }
  }

  /** After one turn per player, the same player is to move again. */
  lemma SwitchTurnFullCycle(g: Game)
    requires Valid(g)
    ensures SwitchTimes(g, |g.players|) == g
  {
    SwitchTimesCurrent(g, |g.players|);
  }

  /** Arithmetic helpers for Euclidean `%` with a positive divisor. */
  lemma ModBelowTwice(x: int, n: int)
    requires n >= 1 && 0 <= x < 2 * n
    ensures x % n == if x < n then x else x - n
  {
  }

  lemma MulBounds(d: int, n: int)
    requires n >= 1 && -n < d * n < n
    ensures d == 0
  {
  }

  lemma ModUnique(x: int, n: int, q: int, r: int)
    requires n >= 1 && 0 <= r < n && x == q * n + r
    ensures x % n == r
  {
    var d := x / n - q;
    assert d * n == r - x % n;
    MulBounds(d, n);
  }

  lemma ModLessDivisor(x: int, n: int)
    requires n >= 1 && x >= n
    ensures x % n == (x - n) % n
  {
    var q := (x - n) / n;
    assert x == (q + 1) * n + (x - n) % n;
    ModUnique(x, n, q + 1, (x - n) % n);
  }

  /** Playing a + b turns is playing a turns, then b more. */
  lemma {:induction false} SwitchTimesAdd(g: Game, a: nat, b: nat)
    requires 0 <= g.current < |g.players|
    ensures SwitchTimes(g, a + b) == SwitchTimes(SwitchTimes(g, a), b)
    decreases b
  {
    if b > 0 {
      SwitchTimesAdd(g, a, b - 1);
    }
  }

  /** For any number k of turns, the index has moved to `(i + k) % n`. */
  lemma {:induction false} SwitchTimesModulo(g: Game, k: nat)
    requires Valid(g)
    ensures SwitchTimes(g, k).current == (g.current + k) % |g.players|
    decreases k
  {
    var n := |g.players|;
    if k < n {
      SwitchTimesCurrent(g, k);
      ModBelowTwice(g.current + k, n);
    } else {
      SwitchTimesModulo(g, k - n);
      SwitchTimesAdd(g, k - n, n);
      SwitchTurnFullCycle(SwitchTimes(g, k - n));
      ModLessDivisor(g.current + k, n);
    }
  }

  /** Adds a turn's points to the banked score of the player to move. */
  function BankPoints(g: Game, points: int): (r: Game)
    requires 0 <= g.current < |g.players|
    ensures SameRoster(g, r) && r.current == g.current
    ensures r.players[g.current].score == g.players[g.current].score + points
    ensures forall i :: 0 <= i < |g.players| && i != g.current ==> r.players[i] == g.players[i]
  {
    var p := g.players[g.current];
    g.(players := g.players[g.current := p.(score := p.score + points)])
  }

  /** w is the first index holding the highest score. */
  predicate IsFirstMax(ps: seq<Player>, w: int) {
    && 0 <= w < |ps|
    && (forall j :: 0 <= j < |ps| ==> ps[j].score <= ps[w].score)
    && (forall j :: 0 <= j < w ==> ps[j].score < ps[w].score)
  }

  /** The winner: Python's max with a score key, which scans left to right
      and replaces its candidate only on a strictly higher score. */
  function Winner(ps: seq<Player>): (w: nat)
    requires |ps| >= 1
    ensures IsFirstMax(ps, w)
    decreases |ps|
  {
    if |ps| == 1 then 0
    else
      var w := Winner(ps[..|ps| - 1]);
      if ps[|ps| - 1].score > ps[w].score then |ps| - 1 else w
  }

  /** The first-maximum index is unique, so Winner is fully determined by it. */
  lemma WinnerUnique(ps: seq<Player>, w: int)
    requires |ps| >= 1
    ensures IsFirstMax(ps, w) <==> w == Winner(ps)
  {
  }

  /** Starts a new round: every score back to 0 and the first player to move;
      the roster is kept. */
  function ResetGame(g: Game): (r: Game)
    ensures SameRoster(g, r) && r.current == 0
    ensures forall i :: 0 <= i < |r.players| ==> r.players[i].score == 0
  {
    g.(players := seq(|g.players|, i requires 0 <= i < |g.players| => ResetScore(g.players[i])),
       current := 0)
  }

  lemma ResetGameIdempotent(g: Game)
    ensures ResetGame(ResetGame(g)) == ResetGame(g)
  {
  }

  lemma ResetGameValid(g: Game)
    requires |g.players| >= 1
    ensures Valid(ResetGame(g))
  {
  }

  /** Resetting a game that kept the roster of a fresh game gives back that
      fresh game, whatever was played in between. */
  lemma ResetGameIsNewGame(g: Game, numPlayers: int)
    requires SameRoster(NewGame(numPlayers), g)
    ensures ResetGame(g) == NewGame(numPlayers)
  {
  }
}
