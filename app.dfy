/** The game object the terminal loop owns and updates in place: the players'
    cells, the turn index, the information log and the winner.  Its turn method
    follows the source step by step and is proved to do what `Rules.Step` says. */
module Goose {
  import opened Board
  import opened Rules

  class App {
    var players: seq<Player>
    var currentIndex: int
    var info: seq<Event>
    var finished: bool
    var winner: string

    /** The game as a value. */
    ghost function Model(): Game
      reads this
    {
      Game(players, currentIndex, info, finished, winner)
    }

    /** Four players, an index that picks one of them (so that looking the current
        player up never fails) and every cell on the board. */
    ghost predicate Valid()
      reads this
    {
      WellFormed(Model())
    }

    /** The default game: J1, J2, J3 and J4 on the start cell, J1 to play, an
        empty log, not finished and no winner. */
    constructor ()
      ensures Valid() && Model() == Default()
    {
      players := [Player("J1", 0), Player("J2", 0), Player("J3", 0), Player("J4", 0)];
      currentIndex := 0;
      info := [];
      finished := false;
      winner := "";
    }

    /** The current player takes a turn with die roll `n`.  The result `won` is true
        when the player landed on 63: the caller then stops playing, and neither a
        special cell nor the turn rotation is applied. */
    method TakeTurn(n: int) returns (won: bool)
      requires Valid() && IsRoll(n)
      modifies this
      ensures Valid()
      ensures Model() == Step(old(Model()), n).game
      ensures won == Step(old(Model()), n).won
    {
      ghost var g := Model();
      ghost var p := g.players[g.currentIndex];
      ghost var t := Turn(p, n);
      var playerName := players[currentIndex].name;
      if players[currentIndex].cell + n > Last {
        info := info + [Overshot(playerName, n, Last - players[currentIndex].cell)];
      } else {
        players := players[currentIndex := players[currentIndex].(cell := players[currentIndex].cell + n)];
        info := info + [Rolled(playerName, n)];
      }
      assert players == g.players[g.currentIndex := p.(cell := Landing(p.cell, n))];
      assert info == g.info + t.events[..1];
      if players[currentIndex].cell == Last {
        winner := playerName;
        info := info + [Won(playerName)];
        assert t.won && Model() == Step(g, n).game;
        return true;
      }
      if players[currentIndex].cell % 5 == 0 {
        players := players[currentIndex := players[currentIndex].(cell := players[currentIndex].cell - SetbackStep)];
        info := info + [SetBack(playerName)];
      } else if players[currentIndex].cell % 7 == 0 {
        players := players[currentIndex := players[currentIndex].(cell := players[currentIndex].cell + BonusStep)];
        info := info + [Bonused(playerName)];
      }
      assert !t.won && players == g.players[g.currentIndex := p.(cell := t.cell)];
      assert info == g.info + t.events;
      if currentIndex >= |players| - 1 {
        currentIndex := 0;
      } else {
        currentIndex := currentIndex + 1;
      }
      won := false;
    }
  }

  /** The game loop: each roll in `rolls` stands for one press of the turn key,
      and play stops at the first win (the source breaks out of its loop there)
      or when the rolls run out (the player quits). */
  method RunApp(app: App, rolls: seq<int>) returns (won: bool, turns: nat)
    requires app.Valid() && !app.finished
    requires forall i :: 0 <= i < |rolls| ==> IsRoll(rolls[i])
    modifies app
    ensures app.Valid() && !app.finished
    ensures app.Model() == Play(old(app.Model()), rolls).game
    ensures won == Play(old(app.Model()), rolls).won
    ensures turns <= |rolls| && (!won ==> turns == |rolls|)
  {
    won, turns := false, 0;
    while !app.finished && turns < |rolls|
      invariant app.Valid() && !app.finished && turns <= |rolls| && !won
      invariant Play(old(app.Model()), rolls) == Play(app.Model(), rolls[turns..])
      decreases |rolls| - turns
    {
      assert rolls[turns..][1..] == rolls[turns + 1..];
      won := app.TakeTurn(rolls[turns]);
      turns := turns + 1;
      if won {
        break;
      }
    }
  }

  /** A whole game: a default game object played with the given rolls.  Every
      cell stays on the board; a win leaves the winner, named in `winner`, on 63
      and the turn with them; otherwise every player rests on a cell short of 63. */
  method NewGame(rolls: seq<int>) returns (app: App, won: bool)
    requires forall i :: 0 <= i < |rolls| ==> IsRoll(rolls[i])
    ensures fresh(app) && app.Valid() && !app.finished
    ensures won ==> app.players[app.currentIndex].cell == Last
                    && app.winner == app.players[app.currentIndex].name
    ensures !won ==> Resting(app.Model())
  {
    app := new App();
    DefaultIsResting();
    PlayStaysOnBoard(app.Model(), rolls);
    var turns;
    won, turns := RunApp(app, rolls);
  }
}
