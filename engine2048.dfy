/**
 * The 2048 game state machine: the single `state` object of the game with
 * its board, score, best score, win/keep-playing/game-over flags and undo
 * stack, and the operations that update it in place.
 */
module Engine2048 {
  import opened Common
  import opened Lines
  import opened Boards

  const DefaultSize := 4
  const MaxUndo := 20

  /** What `snapshotState` copies: everything an undo restores. */
  datatype Snapshot = Snapshot(board: Board, score: int, hasWon: bool, keepPlaying: bool, isGameOver: bool)

  /** The game as `saveState` writes it. */
  datatype GameRecord = GameRecord(size: int, board: Board, score: int, hasWon: bool, keepPlaying: bool, isGameOver: bool)

  /** A stored game as read back; a field missing from the stored object is None. */
  datatype SavedGame = SavedGame(
    size: Option<int>, board: Option<Board>, score: Option<int>,
    hasWon: Option<bool>, keepPlaying: Option<bool>, isGameOver: Option<bool>)

  /** How a move request ended: dropped silently, rejected as a no-op, or played. */
  datatype MoveReport = Ignored | NoTilesMoved | Accepted(gained: int)

  // ---------------------------------------------------------------------
  // The undo stack as a value

  /** `pushUndo`: append the snapshot, then drop the oldest entry once past the cap. */
  function Pushed(stack: seq<Snapshot>, s: Snapshot): (r: seq<Snapshot>)
    requires |stack| <= MaxUndo
    ensures |r| == Min(|stack| + 1, MaxUndo)
  {
    var grown := stack + [s];
    if |grown| > MaxUndo then grown[1..] else grown
  }

  /** A push keeps the newest entries of the stack with the snapshot on top. */
  lemma PushedSuffix(stack: seq<Snapshot>, s: Snapshot)
    requires |stack| <= MaxUndo
    ensures Pushed(stack, s) == (stack + [s])[|stack| + 1 - |Pushed(stack, s)|..]
  {
  }

  /** Popping right after a push gives back the snapshot, over the stack minus its oldest entry if it was full. */
  lemma PushThenPop(stack: seq<Snapshot>, s: Snapshot)
    requires |stack| <= MaxUndo
    ensures var r := Pushed(stack, s);
      && |r| > 0 && r[|r| - 1] == s
      && r[..|r| - 1] == if |stack| < MaxUndo then stack else stack[1..]
  {
    var r := Pushed(stack, s);
    if |stack| < MaxUndo {
      assert r[..|r| - 1] == stack;
    } else {
      assert r[..|r| - 1] == stack[1..];
    }
  }

  /** A run of pushes, oldest first. */
  function PushAll(stack: seq<Snapshot>, ss: seq<Snapshot>): seq<Snapshot>
    requires |stack| <= MaxUndo
    decreases |ss|
  {
    if ss == [] then stack else PushAll(Pushed(stack, ss[0]), ss[1..])
  }

  /** Any run of pushes leaves exactly the newest entries, at most MaxUndo of them: eviction is first in, first out. */
  lemma {:induction false} PushAllKeepsNewest(stack: seq<Snapshot>, ss: seq<Snapshot>)
    requires |stack| <= MaxUndo
    ensures var all := stack + ss;
      PushAll(stack, ss) == all[|all| - Min(|all|, MaxUndo)..]
    decreases |ss|
  {
    if ss == [] {
      assert stack + ss == stack;
    } else {
      PushAllKeepsNewest(Pushed(stack, ss[0]), ss[1..]);
      PushedThenRest(stack, ss);
      if |stack| == MaxUndo {
        NewestOfSuffix(stack + ss, 1);
      }
    }
  }

  /** After the first push, the pushed stack and the remaining snapshots are everything pushed so far, less the evicted entry. */
  lemma PushedThenRest(stack: seq<Snapshot>, ss: seq<Snapshot>)
    requires |stack| <= MaxUndo && ss != []
    ensures |stack| < MaxUndo ==> Pushed(stack, ss[0]) + ss[1..] == stack + ss
    ensures |stack| == MaxUndo ==> Pushed(stack, ss[0]) + ss[1..] == (stack + ss)[1..]
  {
    assert [ss[0]] + ss[1..] == ss;
    if |stack| == MaxUndo {
      assert Pushed(stack, ss[0]) == stack[1..] + [ss[0]];
      assert (stack + ss)[1..] == stack[1..] + ss;
    }
  }

  /** Dropping entries below the newest MaxUndo does not change the newest MaxUndo. */
  lemma NewestOfSuffix(all: seq<Snapshot>, j: int)
    requires 0 <= j <= 1 && j <= |all| && (j == 1 ==> |all| > MaxUndo)
    ensures var rest := all[j..];
      rest[|rest| - Min(|rest|, MaxUndo)..] == all[|all| - Min(|all|, MaxUndo)..]
  {
    var rest := all[j..];
    assert Min(|rest|, MaxUndo) == Min(|all|, MaxUndo);
    assert |rest| - Min(|rest|, MaxUndo) + j == |all| - Min(|all|, MaxUndo);
  }

  /** The stack is within its cap and every snapshot holds an n x n board. */
  predicate StackFits(stack: seq<Snapshot>, n: int)
  {
    |stack| <= MaxUndo && forall k :: 0 <= k < |stack| ==> IsSquare(stack[k].board, n)
  }

  /** Pushing an n x n snapshot keeps the stack fitting. */
  lemma PushedFits(stack: seq<Snapshot>, s: Snapshot, n: int)
    requires StackFits(stack, n) && IsSquare(s.board, n)
    ensures StackFits(Pushed(stack, s), n)
  {
    var r := Pushed(stack, s);
    PushedSuffix(stack, s);
    forall k | 0 <= k < |r|
      ensures IsSquare(r[k].board, n)
    {
      var j := k + |stack| + 1 - |r|;
      assert r[k] == (stack + [s])[j];
    }
  }

  /** Twenty-five pushes onto an empty stack keep the last twenty and drop the five oldest. */
  lemma PushTwentyFive(ss: seq<Snapshot>)
    requires |ss| == 25
    ensures PushAll([], ss) == ss[5..]
  {
    PushAllKeepsNewest([], ss);
    assert [] + ss == ss;
  }

  // ---------------------------------------------------------------------
  // Persistence as record transforms

  /** `saveState`: the persisted fields, all present. */
  function Save(g: GameRecord): SavedGame
  {
    SavedGame(Some(g.size), Some(g.board), Some(g.score), Some(g.hasWon), Some(g.keepPlaying), Some(g.isGameOver))
  }

  /** `data.size || GAME2048_DEFAULT_SIZE`: a missing or zero size falls back to the default. */
  function RestoredSize(data: SavedGame): int
  {
    match data.size
    case Some(n) => if n == 0 then DefaultSize else n
    case None => DefaultSize
  }

  /** A stored board is used when it is present and non-empty. */
  predicate KeepsStoredBoard(data: SavedGame)
  {
    data.board.Some? && |data.board.value| > 0
  }

  /** What restoring may assume: the size is usable and a kept board is size x size. */
  predicate Restorable(data: SavedGame)
  {
    RestoredSize(data) >= 0
    && (KeepsStoredBoard(data) ==> IsSquare(data.board.value, RestoredSize(data)))
  }

  function Truthy(b: Option<bool>): bool
  {
    b == Some(true)
  }

  /** `restoreState`: every field from the stored object, or its default when absent. */
  function Restored(data: SavedGame): (g: GameRecord)
    requires Restorable(data)
    ensures IsSquare(g.board, g.size)
  {
    var n := RestoredSize(data);
    GameRecord(
      n,
      if KeepsStoredBoard(data) then data.board.value else EmptyBoard(n),
      match data.score case Some(s) => s case None => 0,
      Truthy(data.hasWon), Truthy(data.keepPlaying), Truthy(data.isGameOver))
  }

  /** Saving then restoring gives back the same game whenever its size is positive. */
  lemma SaveRestoreRoundTrip(g: GameRecord)
    requires g.size > 0 && IsSquare(g.board, g.size)
    ensures Restorable(Save(g)) && Restored(Save(g)) == g
  {
  }

  /** A stored object with every field missing restores to a fresh default game. */
  lemma RestoreDefaults()
    ensures var data := SavedGame(None, None, None, None, None, None);
      Restorable(data) && Restored(data) == GameRecord(DefaultSize, EmptyBoard(DefaultSize), 0, false, false, false)
  {
  }

  /** A game saved with size 0 does not come back: it restores as an empty default-size board. */
  lemma SaveRestoreZeroSize(g: GameRecord)
    requires g.size == 0 && IsSquare(g.board, 0)
    ensures Restorable(Save(g))
    ensures Restored(Save(g)).size == DefaultSize && Restored(Save(g)).board == EmptyBoard(DefaultSize)
  {
  }

  // ---------------------------------------------------------------------
  // The win check

  /**
   * The win check of `handleMove` on the flags (hasWon, keepPlaying): the
   * first board holding the winning tile sets hasWon and clears keepPlaying.
   */
  function WinCheck(hasWon: bool, keepPlaying: bool, b: Board): (flags: (bool, bool))
  {
    if !hasWon && HasCellAtLeast(b, WinTile) then (true, false) else (hasWon, keepPlaying)
  }

  /** A win is never taken back, and keepPlaying only changes on the first win, to false. */
  lemma WinCheckMonotone(hasWon: bool, keepPlaying: bool, b: Board)
    ensures hasWon ==> WinCheck(hasWon, keepPlaying, b) == (hasWon, keepPlaying)
    ensures WinCheck(hasWon, keepPlaying, b).0 <==> hasWon || HasCellAtLeast(b, WinTile)
    ensures WinCheck(hasWon, keepPlaying, b).1 ==> keepPlaying
  {
  }

  // ---------------------------------------------------------------------
  // The two starter tiles

  /** `[spawnA, spawnB].filter(Boolean)`: the spots that were filled, in order. */
  function Present(spots: seq<Option<Cell>>): (cells: seq<Cell>)
    ensures |cells| <= |spots|
    ensures forall cell :: cell in cells <==> Some(cell) in spots
  {
    if spots == [] then []
    else (if spots[0].Some? then [spots[0].value] else []) + Present(spots[1..])
  }

  /** Every reported spot is a distinct cell of `b` that holds a tile. */
  predicate ReportsTiles(b: Board, spots: seq<Cell>)
  {
    && (forall k :: 0 <= k < |spots| ==>
          spots[k].r < |b| && spots[k].c < |b[spots[k].r]| && b[spots[k].r][spots[k].c] != 0)
    && (forall i, j :: 0 <= i < j < |spots| ==> spots[i] != spots[j])
  }

  /** The two starter spawns report the cells they filled, and the second never lands on the first. */
  lemma StarterSpots(b0: Board, b1: Board, a: Option<Cell>, b2: Board, b: Option<Cell>)
    requires a.None? ==> b1 == b0
    requires a.Some? ==> Spawned(b0, b1, a.value)
    requires b.None? ==> b2 == b1
    requires b.Some? ==> Spawned(b1, b2, b.value)
    ensures ReportsTiles(b2, Present([a, b]))
  {
    PresentPair(a, b);
    if a.Some? && b.Some? {
      var x, y := a.value, b.value;
      assert b1[x.r][x.c] != 0 && b1[y.r][y.c] == 0;
      assert x != y;
      assert b2[x.r][x.c] == b1[x.r][x.c];
    }
  }

  /**
   * The board `startNewGame` builds: an empty n x n board and two calls of
   * `addRandomTile`, with the spots that were filled.
   */
  method StarterBoard(n: nat) returns (b: Board, spots: seq<Cell>)
    ensures IsSquare(b, n) && OnlyStarterTiles(b)
    ensures TileCount(b) == |spots| == Min(2, n)
    ensures ReportsTiles(b, spots)
  {
    var b0 := EmptyBoard(n);
    var b1, spawnA := AddRandomTile(b0);
    var b2, spawnB := AddRandomTile(b1);
    StarterSpawns(n, b1, spawnA, b2, spawnB);
    StarterSpots(b0, b1, spawnA, b2, spawnB);
    b := b2;
    spots := Present([spawnA, spawnB]);
  }

  /**
   * Two spawns on an empty n x n board place min(2, n) (that is, min(2, n * n)) starter tiles,
   * one per reported spot: the first always finds room on a non-empty grid,
   * and the second does too from 2 x 2 up.
   */
  lemma StarterSpawns(n: nat, b1: Board, a: Option<Cell>, b2: Board, b: Option<Cell>)
    requires a.None? <==> !HasEmptyCell(EmptyBoard(n))
    requires a.None? ==> b1 == EmptyBoard(n)
    requires a.Some? ==> Spawned(EmptyBoard(n), b1, a.value)
    requires b.None? <==> !HasEmptyCell(b1)
    requires b.None? ==> b2 == b1
    requires b.Some? ==> Spawned(b1, b2, b.value)
    ensures IsSquare(b2, n) && TileCount(b2) == Min(2, n) && OnlyStarterTiles(b2)
    ensures |Present([a, b])| == Min(2, n)
  {
    PresentPair(a, b);
    FreshBoard(n);
    if n == 0 {
      assert b2 == EmptyBoard(0);
    } else {
      SpawnedShape(EmptyBoard(n), b1, a.value, n);
      SpawnedTiles(EmptyBoard(n), b1, a.value);
      if n == 1 {
        OnlyCellFilled(b1, a.value);
      } else {
        SecondCellFree(n, b1, a.value);
        SpawnedShape(b1, b2, b.value, n);
        SpawnedTiles(b1, b2, b.value);
      }
    }
  }

  lemma PresentPair(a: Option<Cell>, b: Option<Cell>)
    ensures Present([a, b]) == (if a.Some? then [a.value] else []) + (if b.Some? then [b.value] else [])
    ensures |Present([a, b])| == (if a.Some? then 1 else 0) + (if b.Some? then 1 else 0)
  {
    assert [a, b][1..] == [b];
    assert [b][1..] == [];
  }

  /** A fresh board is n x n, holds no tile, and has room exactly when n > 0. */
  lemma FreshBoard(n: nat)
    ensures IsSquare(EmptyBoard(n), n) && TileCount(EmptyBoard(n)) == 0 && OnlyStarterTiles(EmptyBoard(n))
    ensures HasEmptyCell(EmptyBoard(n)) <==> n > 0
  {
    EmptyBoardHasNoTiles(n);
    if n > 0 {
      assert EmptyBoard(n)[0][0] == 0;
    }
  }

  /** After one spawn on an empty board of side at least 2, another cell is still empty. */
  lemma SecondCellFree(n: nat, b1: Board, cell: Cell)
    requires n >= 2 && Spawned(EmptyBoard(n), b1, cell)
    ensures HasEmptyCell(b1)
  {
    var other := if cell == Cell(0, 0) then Cell(0, 1) else Cell(0, 0);
    assert b1[other.r][other.c] == 0;
  }

  /** After one spawn on a 1 x 1 board no cell is empty. */
  lemma OnlyCellFilled(b1: Board, cell: Cell)
    requires Spawned(EmptyBoard(1), b1, cell)
    ensures !HasEmptyCell(b1)
  {
    assert |b1| == 1 && |b1[0]| == 1 && b1[0][0] != 0;
  }

  /** What `handleMove` relies on from a finished move. */
  lemma MoveOutcomeFacts(b: Board, n: nat, d: Direction, nb: Board, moved: bool, gained: int)
    requires IsSquare(b, n) && MoveOutcome(nb, moved, gained) == Moved(b, n, d)
    ensures IsSquare(nb, n)
    ensures moved ==> HasEmptyCell(nb)
    ensures !moved ==> nb == b && gained == 0
  {
    MovedShape(b, n, d);
    if moved {
      MovedLeavesGap(b, n, d);
    } else {
      MovedStill(b, n, d);
    }
  }

  // ---------------------------------------------------------------------
  // The game object

  class GameState {
    var size: int
    var board: Board
    var score: int
    var best: int
    var hasWon: bool
    var keepPlaying: bool
    var isGameOver: bool
    var undoStack: seq<Snapshot>
    var lastSpawnCells: seq<Cell>

    /** The board is size x size, and so is every snapshot; the undo stack is within its cap. */
    ghost predicate Valid()
      reads this
    {
      IsSquare(board, size) && StackFits(undoStack, size)
    }

    /** The object as the page loads it, before any game is started or restored. */
    constructor ()
      ensures size == DefaultSize && board == [] && score == 0 && best == 0
      ensures !hasWon && !keepPlaying && !isGameOver
      ensures undoStack == [] && lastSpawnCells == []
    {
      size := DefaultSize;
      board := [];
      score := 0;
      best := 0;
      hasWon := false;
      keepPlaying := false;
      isGameOver := false;
      undoStack := [];
      lastSpawnCells := [];
    }

    /** `snapshotState`: a copy of what an undo restores, which leaves out the size, the best score and the spawn cells. */
    function Current(): (s: Snapshot)
      reads this
      ensures s.board == board && s.score == score
      ensures s.hasWon == hasWon && s.keepPlaying == keepPlaying && s.isGameOver == isGameOver
    {
      Snapshot(board, score, hasWon, keepPlaying, isGameOver)
    }

    function Record(): GameRecord
      reads this
    {
      GameRecord(size, board, score, hasWon, keepPlaying, isGameOver)
    }

    /** `moveBoard`: slide every row or column of the board in place. */
    method MoveBoard(d: Direction) returns (moved: bool, gained: int)
      requires IsSquare(board, size)
      modifies this`board
      ensures MoveOutcome(board, moved, gained) == Moved(old(board), size, d)
    {
      var nb;
      if d.Horizontal() {
        nb, moved, gained := SlideRows(board, size, d);
        MovedRowsParts(board, size, d, nb, moved, gained);
      } else {
        nb, moved, gained := SlideColumns(board, size, d);
        MovedColumnsParts(board, size, d, nb, moved, gained);
      }
      board := nb;
    }

    /** `pushUndo`. */
    method PushUndo(snapshot: Snapshot)
      requires |undoStack| <= MaxUndo
      modifies this`undoStack
      ensures undoStack == Pushed(old(undoStack), snapshot)
    {
      undoStack := undoStack + [snapshot];
      if |undoStack| > MaxUndo {
        undoStack := undoStack[1..];
      }
    }

    /** `updateBestScore`: best never decreases and ends at least the score. */
    method UpdateBestScore()
      modifies this`best
      ensures best == Max(old(best), score)
    {
      if score > best {
        best := score;
      }
    }

    /** `startNewGame(size)`: an empty board with two starter tiles; best is kept. */
    method StartNewGame(n: int)
      requires n >= 0
      modifies this
      ensures Valid()
      ensures size == n && score == 0 && best == old(best)
      ensures !hasWon && !keepPlaying && !isGameOver && undoStack == []
      ensures TileCount(board) == |lastSpawnCells| == Min(2, n) && OnlyStarterTiles(board)
      ensures ReportsTiles(board, lastSpawnCells)
    {
      var starter, spots := StarterBoard(n);
      size := n;
      board := starter;
      score := 0;
      hasWon := false;
      keepPlaying := false;
      isGameOver := false;
      undoStack := [];
      lastSpawnCells := spots;
    }

    /**
     * `handleMove(direction)`; `active` is the view gate (`isActive` in the
     * stand-alone game, `activeView === "game2048"` in the combined page).
     */
    method HandleMove(token: string, active: bool) returns (report: MoveReport)
      requires Valid()
      modifies this
      ensures Valid()
      ensures size == old(size)
      ensures report.Ignored? <==>
        token == "" || !active || old(isGameOver) || (old(hasWon) && !old(keepPlaying))
      ensures !report.Accepted? ==>
        && Current() == old(Current()) && best == old(best)
        && undoStack == old(undoStack) && lastSpawnCells == old(lastSpawnCells)
      ensures !report.Ignored? ==>
        (report.Accepted? <==> Moved(old(board), size, Heading(token)).moved)
      ensures report.Accepted? ==>
        var m := Moved(old(board), size, Heading(token));
        && report.gained == m.gained
        && score == old(score) + (if m.gained > 0 then m.gained else 0)
        && best == Max(old(best), score)
        && undoStack == Pushed(old(undoStack), old(Current()))
        && (hasWon, keepPlaying) == WinCheck(old(hasWon), old(keepPlaying), m.board)
        && |lastSpawnCells| == 1 && Spawned(m.board, board, lastSpawnCells[0])
        && isGameOver == !Movable(board)
    {
      if token == "" || !active {
        return Ignored;
      }
      if isGameOver {
        return Ignored;
      }
      if hasWon && !keepPlaying {
        return Ignored;
      }
      report := PlayMove(Heading(token));
    }

    /** `handleMove` past its guards: move, then score, spawn and check, or report that nothing moved. */
    method PlayMove(d: Direction) returns (report: MoveReport)
      requires Valid()
      modifies this
      ensures Valid()
      ensures size == old(size) && !report.Ignored?
      ensures report.Accepted? <==> Moved(old(board), size, d).moved
      ensures report.NoTilesMoved? ==>
        && Current() == old(Current()) && best == old(best)
        && undoStack == old(undoStack) && lastSpawnCells == old(lastSpawnCells)
      ensures report.Accepted? ==>
        var m := Moved(old(board), size, d);
        && report.gained == m.gained
        && score == old(score) + (if m.gained > 0 then m.gained else 0)
        && best == Max(old(best), score)
        && undoStack == Pushed(old(undoStack), old(Current()))
        && (hasWon, keepPlaying) == WinCheck(old(hasWon), old(keepPlaying), m.board)
        && |lastSpawnCells| == 1 && Spawned(m.board, board, lastSpawnCells[0])
        && isGameOver == !Movable(board)
    {
      var moved, gained := MoveWithUndo(d);
      if !moved {
        return NoTilesMoved;
      }
      SettleMove(gained);
      report := Accepted(gained);
    }

    /**
     * The first step of `handleMove`: take a snapshot, move the board, and
     * push the snapshot when tiles moved.
     */
    method MoveWithUndo(d: Direction) returns (moved: bool, gained: int)
      requires Valid()
      modifies this`board, this`undoStack
      ensures Valid()
      ensures var m := Moved(old(board), size, d);
        && moved == m.moved && gained == m.gained && board == m.board
      ensures moved ==> HasEmptyCell(board) && undoStack == Pushed(old(undoStack), old(Current()))
      ensures !moved ==> board == old(board) && gained == 0 && undoStack == old(undoStack)
    {
      ghost var b0 := board;
      var snapshot := Current();
      moved, gained := MoveBoard(d);
      MoveOutcomeFacts(b0, size, d, board, moved, gained);
      if moved {
        PushedFits(undoStack, snapshot, size);
        PushUndo(snapshot);
      }
    }

    /** The rest of `handleMove` once tiles moved: score, best, win check, spawn and stuck check. */
    method SettleMove(gained: int)
      requires IsSquare(board, size) && HasEmptyCell(board)
      modifies this`score, this`best, this`hasWon, this`keepPlaying, this`board, this`lastSpawnCells, this`isGameOver
      ensures IsSquare(board, size)
      ensures score == old(score) + (if gained > 0 then gained else 0)
      ensures best == Max(old(best), score)
      ensures (hasWon, keepPlaying) == WinCheck(old(hasWon), old(keepPlaying), old(board))
      ensures |lastSpawnCells| == 1 && Spawned(old(board), board, lastSpawnCells[0])
      ensures isGameOver == !Movable(board)
    {
      ScoreMove(gained);
      SpawnAndCheck();
    }

    /** Credit the merge gain, refresh the best score and check for the winning tile. */
    method ScoreMove(gained: int)
      modifies this`score, this`best, this`hasWon, this`keepPlaying
      ensures score == old(score) + (if gained > 0 then gained else 0)
      ensures best == Max(old(best), score)
      ensures (hasWon, keepPlaying) == WinCheck(old(hasWon), old(keepPlaying), board)
    {
      if gained > 0 {
        score := score + gained;
      }
      UpdateBestScore();
      if !hasWon {
        var won := BoardHasTarget(board, WinTile);
        if won {
          hasWon := true;
          keepPlaying := false;
        }
      }
    }

    /** Spawn one tile into the moved board and record whether the player is stuck. */
    method SpawnAndCheck()
      requires IsSquare(board, size) && HasEmptyCell(board)
      modifies this`board, this`lastSpawnCells, this`isGameOver
      ensures IsSquare(board, size)
      ensures |lastSpawnCells| == 1 && Spawned(old(board), board, lastSpawnCells[0])
      ensures isGameOver == !Movable(board)
    {
      var spawned, spawn := AddRandomTile(board);
      SpawnedShape(board, spawned, spawn.value, size);
      board := spawned;
      lastSpawnCells := Present([spawn]);
      var canMove := CanMove(board);
      isGameOver := !canMove;
    }

    /** `undoMove`: pop the newest snapshot and restore it; best and size stay. */
    method UndoMove() returns (undone: bool)
      requires Valid()
      modifies this
      ensures Valid()
      ensures undone <==> old(undoStack) != []
      ensures !undone ==> Current() == old(Current()) && undoStack == old(undoStack)
      ensures undone ==>
        && Current() == old(undoStack)[|old(undoStack)| - 1]
        && undoStack == old(undoStack)[..|old(undoStack)| - 1]
      ensures size == old(size) && best == old(best) && lastSpawnCells == old(lastSpawnCells)
    {
      if |undoStack| == 0 {
        return false;
      }
      var previous := undoStack[|undoStack| - 1];
      undoStack := undoStack[..|undoStack| - 1];
      board := previous.board;
      score := previous.score;
      hasWon := previous.hasWon;
      keepPlaying := previous.keepPlaying;
      isGameOver := previous.isGameOver;
      return true;
    }

    /** A key press followed by `undo`: an accepted move is taken back whole. */
    method MoveThenUndo(token: string, active: bool) returns (report: MoveReport)
      requires Valid()
      modifies this
      ensures Valid() && size == old(size)
      ensures report.Accepted? ==>
        && Current() == old(Current())
        && undoStack == (if |old(undoStack)| < MaxUndo then old(undoStack) else old(undoStack)[1..])
        && best >= old(best)
      ensures !report.Accepted? ==>
        && best == old(best)
        && (old(undoStack) == [] ==> Current() == old(Current()) && undoStack == [])
        && (old(undoStack) != [] ==>
              && Current() == old(undoStack)[|old(undoStack)| - 1]
              && undoStack == old(undoStack)[..|old(undoStack)| - 1])
    {
      ghost var before := Current();
      ghost var stack := undoStack;
      report := HandleMove(token, active);
      if report.Accepted? {
        PushThenPop(stack, before);
      }
      var _ := UndoMove();
    }

    /** `keepPlaying`: continue after a win. */
    method KeepPlaying()
      modifies this`keepPlaying
      ensures keepPlaying
    {
      keepPlaying := true;
    }

    /** `saveState`: the record written to storage. */
    method SaveState() returns (data: SavedGame)
      ensures data == Save(Record())
      ensures KeepsStoredBoard(data) <==> |board| > 0
    {
      data := SavedGame(Some(size), Some(board), Some(score), Some(hasWon), Some(keepPlaying), Some(isGameOver));
    }

    /** `restoreState(data)`: take the stored fields or their defaults, and clear the session-only state. */
    method RestoreState(data: SavedGame)
      requires Restorable(data)
      modifies this
      ensures Valid()
      ensures Record() == Restored(data)
      ensures best == old(best) && undoStack == [] && lastSpawnCells == []
    {
      var g := Restored(data);
      size := g.size;
      board := g.board;
      score := g.score;
      hasWon := g.hasWon;
      keepPlaying := g.keepPlaying;
      isGameOver := g.isGameOver;
      undoStack := [];
      lastSpawnCells := [];
    }
  }
}
