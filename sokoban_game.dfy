/**
 * The key dispatch of the Sokoban game (`Sokoban` in `toys/sokoban.py`),
 * without the display: starting a level, a motion key, and the level and
 * undo keys. An exception that the Python code lets escape is a `Fail`
 * outcome here.
 */
module SokobanGame {

  import opened Wrappers
  import opened SokobanGrid
  import opened SokobanLevels
  import SokobanScores
  import opened SokobanPuzzle

  /** The level keys of `handle_key`: the next level, the previous one, the same one again. */
  const LevelSteps: map<string, int> := map["n" := 1, "p" := -1, "r" := 0]

  /** The game: the level archive, the saved state and the puzzle being played. */
  class Sokoban {
    const store: LevelStore
    const state: SokobanScores.SavedState
    /** `self.puzzle`, which does not exist (`null`) until a level has been started. */
    var puzzle: Puzzle?

    /**
     * `Sokoban()`: the saved state sized by the archive's number of levels,
     * and no puzzle yet.
     */
    constructor(store: LevelStore, saved: Option<SokobanScores.Data>)
      ensures this.store == store && puzzle == null
      ensures fresh(state) && state.nLevels == Len(store)
      ensures saved.Some? ==> state.Doc() == saved.value
      ensures saved.None? ==> state.level == 0 && state.scores == SokobanScores.InitialScores(Len(store))
    {
      this.store := store;
      state := new SokobanScores.SavedState(Len(store), saved);
      puzzle := null;
    }

    /**
     * `start(level, level_step)`: the level given, or the current one moved
     * by `level_step` and clamped to the archive; then a fresh puzzle of that
     * level. A level the archive lacks raises `KeyError` after the level has
     * been set, and the old puzzle stays.
     */
    method Start(level: Option<int>, step: int) returns (o: Outcome)
      modifies this, state
      ensures state.nLevels == old(state.nLevels) && state.scores == old(state.scores)
      ensures level.Some? ==> state.level == level.value
      ensures level.None? ==> state.level == SokobanScores.Clamp(old(state.level) + step, state.nLevels)
      // The saves of the level setter: one per change of level.
      ensures level.Some? ==>
        state.saves == old(state.saves) + (if old(state.level) != level.value then [state.Doc()] else [])
      ensures level.None? ==>
        state.saves == old(state.saves)
          + (if step != 0 then [SokobanScores.Data(old(state.level) + step, state.scores)] else [])
          + (if state.level != old(state.level) + step then [state.Doc()] else [])
      ensures RetrieveContent(store, state.level).Err? ==> o == Fail(KeyError) && puzzle == old(puzzle)
      ensures RetrieveContent(store, state.level).Ok? ==>
        && o == Pass && puzzle != null && fresh(puzzle)
        && puzzle.Valid() && puzzle.state == state
        && puzzle.grid == RetrieveContent(store, state.level).value
        && (forall p :: p in puzzle.homes <==> InRange(puzzle.grid, p) && puzzle.grid[p.y][p.x] == '.')
        && IsLastX(puzzle.grid, puzzle.pos)
        && puzzle.moveCount == 0 && puzzle.pushCount == 0 && puzzle.undoBuffer == []
    {
      if level.Some? {
        state.SetLevel(level.value);
      } else {
        state.SelectNextLevel(step);
      }
      if RetrieveContent(store, state.level).Err? {
        return Fail(KeyError);
      }
      puzzle := new Puzzle(store, state);
      o := Pass;
    }

    /**
     * `handle_motion_key(keys)`: the motion is made on the puzzle; when it
     * changed rows and finished the level, the score (the puzzle's move and
     * push counts) is stored for the current level. The exceptions of the
     * motion and of `store_score` escape; without a puzzle, reading
     * `self.puzzle` raises `AttributeError`.
     */
    method HandleMotionKey(key: string) returns (o: Outcome)
      requires puzzle != null ==> puzzle.Valid() && CanStep(puzzle.grid, puzzle.homes, puzzle.pos, key)
      modifies puzzle, state
      ensures puzzle == null ==> o == Fail(AttributeError) && unchanged(state)
      ensures puzzle != null ==>
        var m := NextMotion(old(puzzle.Current()), old(puzzle.homes), key);
        && puzzle.Valid() && puzzle.Current() == m.after
        // The level's home cells, its height and its saved state belong to the puzzle for good.
        && puzzle.homes == old(puzzle.homes) && puzzle.height == old(puzzle.height) && puzzle.state == old(puzzle.state)
        && puzzle.undoBuffer == old(puzzle.undoBuffer) + (if m.record.Some? then [m.record.value] else [])
        && state.level == old(state.level) && state.nLevels == old(state.nLevels)
        // `store_score` writes nothing: no key of a motion saves the state.
        && state.saves == old(state.saves)
        && (m.result.Err? ==> o == Fail(m.result.error) && state.scores == old(state.scores))
        && (m.result.Ok? && (m.result.value == [] || !Finished(m.after.grid, puzzle.homes)) ==>
              o == Pass && state.scores == old(state.scores))
        && (m.result.Ok? && m.result.value != [] && Finished(m.after.grid, puzzle.homes) ==>
              if state.level in old(state.scores) then
                o == Pass
                && state.scores == old(state.scores)[state.level :=
                     SokobanScores.Improved(old(state.scores)[state.level], m.after.moves, m.after.pushes)]
              else
                o == Fail(KeyError) && state.scores == old(state.scores))
    {
      if puzzle == null {
        return Fail(AttributeError);
      }
      var r := puzzle.HandleMotion(key);
      if r.Err? {
        return Fail(r.error);
      }
      o := Pass;
      if r.value != [] && Finished(puzzle.grid, puzzle.homes) {
        o := state.StoreScore(puzzle.moveCount, puzzle.pushCount);
      }
    }

    /**
     * `handle_key(keys)`: `n`, `p` and `r` start the next, the previous or
     * the same level, and a `KeyError` of the start escapes; `u` undoes the
     * last move; any other key does nothing. Without a puzzle, reading
     * `self.puzzle` raises `AttributeError`.
     */
    method HandleKey(key: string) returns (o: Outcome)
      requires puzzle != null ==> puzzle.Valid()
      modifies this, state, puzzle
      ensures key in LevelSteps ==>
        var step := LevelSteps[key];
        && state.level == SokobanScores.Clamp(old(state.level) + step, state.nLevels)
        && state.scores == old(state.scores) && state.nLevels == old(state.nLevels)
        && state.saves == old(state.saves)
             + (if step != 0 then [SokobanScores.Data(old(state.level) + step, state.scores)] else [])
             + (if state.level != old(state.level) + step then [state.Doc()] else [])
        && (RetrieveContent(store, state.level).Ok? ==>
              o == Pass && puzzle != null && fresh(puzzle) && puzzle.Valid() && puzzle.state == state
              && puzzle.grid == RetrieveContent(store, state.level).value
              && (forall p :: p in puzzle.homes <==> InRange(puzzle.grid, p) && puzzle.grid[p.y][p.x] == '.')
              && IsLastX(puzzle.grid, puzzle.pos)
              && puzzle.moveCount == 0 && puzzle.pushCount == 0 && puzzle.undoBuffer == [])
        && (RetrieveContent(store, state.level).Err? ==> o == Fail(KeyError) && puzzle == old(puzzle))
      // A start never touches the old puzzle: a failed one leaves it playable as it was.
      ensures key in LevelSteps && old(puzzle) != null ==> unchanged(old(puzzle))
      ensures key !in LevelSteps ==> puzzle == old(puzzle) && unchanged(state)
      ensures key !in LevelSteps && puzzle == null ==> o == Fail(AttributeError)
      ensures key == "u" && puzzle != null ==>
        var n := |old(puzzle.undoBuffer)|;
        && o == Pass && puzzle.Valid()
        && puzzle.homes == old(puzzle.homes) && puzzle.height == old(puzzle.height) && puzzle.state == old(puzzle.state)
        && (n == 0 || old(Finished(puzzle.grid, puzzle.homes)) ==> unchanged(puzzle))
        && (n > 0 && !old(Finished(puzzle.grid, puzzle.homes)) ==>
              var record := old(puzzle.undoBuffer)[n - 1];
              && RowsIn(record.lines, |old(puzzle.grid)|)
              && puzzle.Current() == Undone(old(puzzle.Current()), record)
              && puzzle.undoBuffer == old(puzzle.undoBuffer)[..n - 1])
      ensures key !in LevelSteps && key != "u" && puzzle != null ==> o == Pass && unchanged(puzzle)
    {
      if key in LevelSteps {
        o := Start(None, LevelSteps[key]);
        if o.Fail? {
          return;
        }
      } else if key == "u" {
        if puzzle == null {
          return Fail(AttributeError);
        }
        var changed := puzzle.Undo();
      }
      if puzzle == null {
        return Fail(AttributeError);
      }
      o := Pass;
    }
  }
}
