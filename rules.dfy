/** The rules of one turn of the goose game, on values: a player rolls a die,
    moves unless the roll overshoots cell 63, wins on landing exactly on 63, and
    otherwise may hit one special cell (back 2 on a multiple of 5, forward 2 on a
    multiple of 7).  Play then passes to the next of the four players.  The
    mutable game object and its driver loop are specified by these functions. */
module Rules {
  import opened Board

  const NumPlayers: int := 4
  /** How far a setback cell sends a player back and a bonus cell sends it forward. */
  const SetbackStep: int := 2
  const BonusStep: int := 2

  /** A die roll: the source draws it uniformly from 1..6. */
  predicate IsRoll(n: int) { 1 <= n <= 6 }

  datatype Player = Player(name: string, cell: int)

  /** One entry of the information log, in place of the formatted message. */
  datatype Event =
    | Overshot(name: string, roll: int, need: int)   // rolled too much: `need` more cells were needed
    | Rolled(name: string, roll: int)                 // moved forward by `roll`
    | Won(name: string)                               // landed exactly on the last cell
    | SetBack(name: string)                           // landed on a setback cell
    | Bonused(name: string)                           // landed on a bonus cell

  /** The state of a game: the players in turn order, whose turn it is, the log,
      the `finished` flag (which no turn sets) and the winner's name. */
  datatype Game = Game(players: seq<Player>, currentIndex: int, info: seq<Event>,
                       finished: bool, winner: string)

  /** The state every game starts from: J1..J4 on the start cell, J1 to play. */
  function Default(): Game
  {
    Game([Player("J1", First), Player("J2", First), Player("J3", First), Player("J4", First)],
         0, [], false, "")
  }

  /** Four players, a current index that picks one of them, every cell on the board. */
  predicate WellFormed(g: Game)
  {
    |g.players| == NumPlayers && 0 <= g.currentIndex < NumPlayers
    && forall i :: 0 <= i < |g.players| ==> First <= g.players[i].cell <= Last
  }

  /** The cell a roll takes a player to, or where it stays when the roll overshoots. */
  function Landing(cell: int, roll: int): (c: int)
    requires First <= cell <= Last && IsRoll(roll)
    ensures First <= c <= Last
    ensures c == cell + roll || (c == cell && cell + roll > Last)
  {
    if cell + roll > Last then cell else cell + roll
  }

  /** What one turn does to the player whose turn it is. */
  datatype TurnResult = TurnResult(cell: int, events: seq<Event>, won: bool)

  /** The turn of player `p` with die roll `roll`: move or overshoot, then the win
      check on the landing cell, then (when not won) at most one special cell. */
  function Turn(p: Player, roll: int): (r: TurnResult)
    requires First <= p.cell <= Last && IsRoll(roll)
    ensures First <= r.cell <= Last
    ensures 1 <= |r.events| <= 2
    ensures r.won <==> r.cell == Last
    ensures r.won <==> Landing(p.cell, roll) == Last
    ensures r.won ==> |r.events| == 2 && r.events[1] == Won(p.name)
  {
    var landed := Landing(p.cell, roll);
    var first := if p.cell + roll > Last then Overshot(p.name, roll, Last - p.cell)
                 else Rolled(p.name, roll);
    if landed == Last then TurnResult(landed, [first, Won(p.name)], true)
    else if landed % 5 == 0 then TurnResult(landed - SetbackStep, [first, SetBack(p.name)], false)
    else if landed % 7 == 0 then TurnResult(landed + BonusStep, [first, Bonused(p.name)], false)
    else TurnResult(landed, [first], false)
  }

  /** The turn index after `i`, written as the source writes it (not as a modulo). */
  function NextIndex(i: int, len: int): (j: int)
    requires 0 <= i < len
    ensures j == (i + 1) % len
  {
    if i >= len - 1 then 0 else i + 1
  }

  datatype StepResult = StepResult(game: Game, won: bool)

  /** One turn of the current player applied to the whole game. */
  function Step(g: Game, roll: int): (r: StepResult)
    requires WellFormed(g) && IsRoll(roll)
    ensures WellFormed(r.game)
    ensures r.game.finished == g.finished
    // only the current player's cell changes
    ensures forall i :: 0 <= i < NumPlayers && i != g.currentIndex ==>
              r.game.players[i] == g.players[i]
    ensures r.game.players[g.currentIndex].name == g.players[g.currentIndex].name
    // the log only grows, by one or two entries
    ensures g.info <= r.game.info && |g.info| + 1 <= |r.game.info| <= |g.info| + 2
    // a win names the player and keeps the turn; otherwise the turn passes on
    ensures r.won <==> r.game.players[g.currentIndex].cell == Last
    ensures r.won <==> Landing(g.players[g.currentIndex].cell, roll) == Last
    ensures r.won ==> r.game.winner == g.players[g.currentIndex].name
                      && r.game.currentIndex == g.currentIndex
    ensures !r.won ==> r.game.winner == g.winner
                       && r.game.currentIndex == (g.currentIndex + 1) % NumPlayers
  {
    var p := g.players[g.currentIndex];
    var t := Turn(p, roll);
    var game := g.(players := g.players[g.currentIndex := p.(cell := t.cell)],
                   info := g.info + t.events);
    if t.won then StepResult(game.(winner := p.name), true)
    else StepResult(game.(currentIndex := NextIndex(g.currentIndex, |g.players|)), false)
  }

  /** The turns played with the rolls in order, stopping at the first win. */
  function Play(g: Game, rolls: seq<int>): (r: StepResult)
    requires WellFormed(g) && forall i :: 0 <= i < |rolls| ==> IsRoll(rolls[i])
    ensures WellFormed(r.game)
    decreases |rolls|
  {
    if rolls == [] then StepResult(g, false)
    else
      var s := Step(g, rolls[0]);
      if s.won then s else Play(s.game, rolls[1..])
  }

  /** Play ends at the first win: rolls after it are never used. */
  lemma {:induction false} PlayStopsAtWin(g: Game, rolls: seq<int>, more: seq<int>)
    requires WellFormed(g) && forall i :: 0 <= i < |rolls| ==> IsRoll(rolls[i])
    requires forall i :: 0 <= i < |more| ==> IsRoll(more[i])
    requires Play(g, rolls).won
    ensures Play(g, rolls + more) == Play(g, rolls)
    decreases |rolls|
  {
    var all := rolls + more;
    assert all[0] == rolls[0] && all[1..] == rolls[1..] + more;
    var s := Step(g, rolls[0]);
    if !s.won {
      PlayStopsAtWin(s.game, rolls[1..], more);
    }
  }

  // ---------------------------------------------------------------------------
  // The rules of one turn

  /** A roll past 63 leaves the cell where it was and logs one overshoot entry
      reporting how many cells were still needed. */
  lemma OvershootKeepsCell(p: Player, roll: int)
    requires First <= p.cell <= Last && IsRoll(roll)
    requires p.cell + roll > Last
    ensures Turn(p, roll).events[0] == Overshot(p.name, roll, Last - p.cell)
    ensures p.cell % 5 != 0 && p.cell % 7 != 0 ==>
              Turn(p, roll).cell == p.cell && |Turn(p, roll).events| == 1
  {
  }

  /** A roll that fits moves the player exactly `roll` cells and logs it. */
  lemma NormalMoveAdvances(p: Player, roll: int)
    requires First <= p.cell <= Last && IsRoll(roll)
    requires p.cell + roll <= Last
    ensures Turn(p, roll).events[0] == Rolled(p.name, roll)
  {
  }

  /** Landing exactly on 63 wins at once: no special cell is applied, even though
      63 is a multiple of 7. */
  lemma WinSkipsEffects(p: Player, roll: int)
    requires First <= p.cell <= Last && IsRoll(roll)
    requires p.cell + roll == Last
    ensures Turn(p, roll) == TurnResult(Last, [Rolled(p.name, roll), Won(p.name)], true)
  {
  }

  /** The special cells, with a setback winning over a bonus, and at most one of
      them per turn: the cell ends 2 back exactly when a setback is logged, 2
      forward exactly when a bonus is logged, and on a landing cell divisible by
      neither 5 nor 7 the player stays where it landed with a single entry. */
  lemma SpecialCells(p: Player, roll: int)
    requires First <= p.cell <= Last && IsRoll(roll)
    ensures var landed, r := Landing(p.cell, roll), Turn(p, roll);
      && (r.cell == landed - SetbackStep <==> !r.won && landed % 5 == 0)
      && (r.cell == landed + BonusStep <==> !r.won && landed % 5 != 0 && landed % 7 == 0)
      && (|r.events| == 2 && r.events[1] == SetBack(p.name) <==> r.cell == landed - SetbackStep)
      && (|r.events| == 2 && r.events[1] == Bonused(p.name) <==> r.cell == landed + BonusStep)
      && (|r.events| == 1 <==> !r.won && r.cell == landed)
      && (landed % 5 != 0 && landed % 7 != 0 <==> r.cell == landed && |r.events| == 1)
  {
  }

  /** The effect a turn applies is the one the board shows for the landing cell. */
  lemma EffectFollowsBoard(p: Player, roll: int)
    requires First <= p.cell <= Last && IsRoll(roll)
    requires !Turn(p, roll).won
    ensures var landed, r := Landing(p.cell, roll), Turn(p, roll);
      && (LabelSuffix(landed) == "-Castigo" <==> r.cell == landed - SetbackStep)
      && (LabelSuffix(landed) == "-Suerte" <==> r.cell == landed + BonusStep)
  {
  }

  // ---------------------------------------------------------------------------
  // Turn rotation

  /** Rotating once and then k more times is rotating k + 1 times. */
  lemma RotateThenAdvance(i: int, k: nat)
    requires 0 <= i < NumPlayers
    ensures ((i + 1) % NumPlayers + k) % NumPlayers == (i + 1 + k) % NumPlayers
  {
    if i + 1 == NumPlayers {
      assert (i + 1) % NumPlayers == 0;
      assert i + 1 + k == k + NumPlayers;
    } else {
      assert (i + 1) % NumPlayers == i + 1;
    }
  }

  /** After k turns without a winner the turn has moved on k players. */
  lemma {:induction false} RotationAdvances(g: Game, rolls: seq<int>)
    requires WellFormed(g) && forall i :: 0 <= i < |rolls| ==> IsRoll(rolls[i])
    requires !Play(g, rolls).won
    ensures Play(g, rolls).game.currentIndex == (g.currentIndex + |rolls|) % NumPlayers
    decreases |rolls|
  {
    if rolls != [] {
      var s := Step(g, rolls[0]);
      var k := |rolls| - 1;
      assert !s.won;
      assert Play(g, rolls) == Play(s.game, rolls[1..]);
      RotationAdvances(s.game, rolls[1..]);
      RotateThenAdvance(g.currentIndex, k);
    }
  }

  /** Four turns without a winner (or any multiple of four) give the turn back
      to the same player. */
  lemma {:induction false} RotationReturns(g: Game, rolls: seq<int>)
    requires WellFormed(g) && forall i :: 0 <= i < |rolls| ==> IsRoll(rolls[i])
    requires |rolls| % NumPlayers == 0 && !Play(g, rolls).won
    ensures Play(g, rolls).game.currentIndex == g.currentIndex
  {
    RotationAdvances(g, rolls);
    WholeRounds(g.currentIndex, |rolls|);
  }

  /** Moving on a whole number of rounds of four lands on the same index. */
  lemma WholeRounds(i: int, n: nat)
    requires 0 <= i < NumPlayers && n % NumPlayers == 0
    ensures (i + n) % NumPlayers == i
  {
    var k := n / NumPlayers;
    assert n == NumPlayers * k;
  }

  /** Playing never removes or reorders log entries and leaves names and the
      number of players alone; each turn adds one or two entries. */
  lemma {:induction false} PlayFrame(g: Game, rolls: seq<int>)
    requires WellFormed(g) && forall i :: 0 <= i < |rolls| ==> IsRoll(rolls[i])
    ensures var r := Play(g, rolls).game;
      && g.info <= r.info
      && |r.info| <= |g.info| + 2 * |rolls|
      && (!Play(g, rolls).won ==> |g.info| + |rolls| <= |r.info|)
      && forall i :: 0 <= i < NumPlayers ==> r.players[i].name == g.players[i].name
    decreases |rolls|
  {
    if rolls != [] {
      var s := Step(g, rolls[0]);
      if !s.won {
        PlayFrame(s.game, rolls[1..]);
      }
    }
  }

  // ---------------------------------------------------------------------------
  // Reachable cells

  /** The cells a player can rest on between turns: on the board short of 63,
      and neither a setback nor a bonus cell except the start, 30 (reached by the
      bonus from 28) and 28 (reached by the setback from 30). */
  predicate RestingCell(c: int)
  {
    First <= c < Last
    && (c % 5 == 0 ==> c == 0 || c == 30)
    && (c % 7 == 0 ==> c == 0 || c == 28)
  }

  predicate Resting(g: Game)
  {
    WellFormed(g) && forall i :: 0 <= i < |g.players| ==> RestingCell(g.players[i].cell)
  }

  /** Landing on a setback cell other than the start sends the player to a
      resting cell (28 when the setback cell is 30). */
  lemma SetbackRests(c: int)
    requires First < c < Last && c % 5 == 0
    ensures RestingCell(c - SetbackStep)
  {
    var k := c / 5;
    assert c == 5 * k && 1 <= k <= 12;
    assert k in {1, 2, 3, 4, 5, 6, 7, 8, 9, 10, 11, 12};
  }

  /** Landing on a bonus cell short of 63 sends the player to a resting cell
      (30 when the bonus cell is 28). */
  lemma BonusRests(c: int)
    requires First < c < Last && c % 7 == 0 && c % 5 != 0
    ensures RestingCell(c + BonusStep)
  {
    var k := c / 7;
    assert c == 7 * k && 1 <= k <= 8;
    assert k in {1, 2, 3, 4, 5, 6, 7, 8};
  }

  /** From a resting cell a turn either wins or ends on a resting cell; an
      overshoot happens only from 58, 59, 61 or 62, where no special cell
      applies, so the cell is unchanged for the whole turn. */
  lemma TurnFromResting(p: Player, roll: int)
    requires RestingCell(p.cell) && IsRoll(roll)
    ensures Turn(p, roll).won || RestingCell(Turn(p, roll).cell)
    ensures p.cell + roll > Last ==>
              p.cell in {58, 59, 61, 62} && Turn(p, roll).cell == p.cell
              && Turn(p, roll).events == [Overshot(p.name, roll, Last - p.cell)]
  {
    var landed := Landing(p.cell, roll);
    if p.cell + roll > Last {
      assert p.cell % 5 != 0 && p.cell % 7 != 0;
    } else if landed != Last && landed % 5 == 0 {
      SetbackRests(landed);
    } else if landed != Last && landed % 7 == 0 {
      BonusRests(landed);
    }
  }

  lemma DefaultIsResting()
    ensures Resting(Default())
  {
  }

  /** Every game played from a resting state (the default one in particular)
      keeps every cell on the board: either someone has won, standing on 63 with
      their name as winner, or every player rests on a cell short of 63. */
  lemma {:induction false} PlayStaysOnBoard(g: Game, rolls: seq<int>)
    requires Resting(g) && forall i :: 0 <= i < |rolls| ==> IsRoll(rolls[i])
    ensures var r := Play(g, rolls);
      if r.won then
        r.game.players[r.game.currentIndex].cell == Last
        && r.game.winner == r.game.players[r.game.currentIndex].name
      else Resting(r.game)
    decreases |rolls|
  {
    if rolls != [] {
      var s := Step(g, rolls[0]);
      TurnFromResting(g.players[g.currentIndex], rolls[0]);
      if !s.won {
        assert Resting(s.game) by {
          forall i | 0 <= i < NumPlayers
            ensures RestingCell(s.game.players[i].cell)
          {
            if i != g.currentIndex {
              assert s.game.players[i] == g.players[i];
            }
          }
        }
        PlayStaysOnBoard(s.game, rolls[1..]);
      }
    }
  }

  /** The concrete cases: 60 + 5 overshoots, and since the special-cell check
      still runs, 60 (a setback cell, never a resting one) sends the player back
      to 58; 61 + 2 wins, 8 + 2 lands on
      the setback cell 10 and goes back to 8, 5 + 2 lands on the bonus cell 7 and
      goes on to 9. */
  lemma TurnExamples(name: string)
    ensures Turn(Player(name, 60), 5) == TurnResult(58, [Overshot(name, 5, 3), SetBack(name)], false)
    ensures Turn(Player(name, 59), 5) == TurnResult(59, [Overshot(name, 5, 4)], false)
    ensures Turn(Player(name, 61), 2) == TurnResult(63, [Rolled(name, 2), Won(name)], true)
    ensures Turn(Player(name, 8), 2).cell == 8
    ensures Turn(Player(name, 5), 2).cell == 9
  {
  }
}
