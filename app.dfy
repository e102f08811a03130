/**
 * The single-page arcade: one 2048 game object and the view that is on
 * screen. Its 2048 handlers are the engine's own; the one difference is
 * that a move is taken only while the 2048 view is the active one.
 */
module App {
  import opened Common
  import opened Boards
  import opened Engine2048

  const MenuView := "menu"
  const Game2048View := "game2048"

  class Arcade {
    var activeView: string
    const game: GameState

    constructor ()
      ensures activeView == MenuView && fresh(game)
    {
      activeView := MenuView;
      game := new GameState();
    }

    /** `showView(name)`, as far as the move gate is concerned. */
    method ShowView(name: string)
      modifies this`activeView
      ensures activeView == name
    {
      activeView := name;
    }

    /**
     * `handle2048Move`: ignored unless the 2048 view is active, and then the
     * engine's `handleMove` with its guards, move, score, spawn and stuck test.
     */
    method Handle2048Move(token: string) returns (report: MoveReport)
      requires game.Valid()
      modifies game
      ensures game.Valid() && game.size == old(game.size)
      ensures report.Ignored? <==>
        || token == "" || activeView != Game2048View
        || old(game.isGameOver) || (old(game.hasWon) && !old(game.keepPlaying))
      ensures !report.Accepted? ==>
        && game.Current() == old(game.Current()) && game.best == old(game.best)
        && game.undoStack == old(game.undoStack) && game.lastSpawnCells == old(game.lastSpawnCells)
      ensures !report.Ignored? ==>
        (report.Accepted? <==> Moved(old(game.board), game.size, Heading(token)).moved)
      ensures report.Accepted? ==>
        var m := Moved(old(game.board), game.size, Heading(token));
        && report.gained == m.gained
        && game.score == old(game.score) + (if m.gained > 0 then m.gained else 0)
        && game.best == Max(old(game.best), game.score)
        && game.undoStack == Pushed(old(game.undoStack), old(game.Current()))
        && (game.hasWon, game.keepPlaying) == WinCheck(old(game.hasWon), old(game.keepPlaying), m.board)
        && |game.lastSpawnCells| == 1 && Spawned(m.board, game.board, game.lastSpawnCells[0])
        && game.isGameOver == !Movable(game.board)
    {
      report := game.HandleMove(token, activeView == Game2048View);
    }
  }
}
