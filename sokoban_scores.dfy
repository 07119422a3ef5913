/**
 * The saved state of the Sokoban game (`SavedState` in `toys/sokoban.py`):
 * the current level and, per level, two best scores, the one with the
 * fewest moves and the one with the fewest pushes. The JSON file the state
 * is written to becomes the ghost trace `saves` of everything written.
 */
module SokobanScores {

  import opened Wrappers

  /** `MAX_MOVES`: the sentinel move and push count of a level not solved yet. */
  const MaxMoves: int := 1_000_000

  /** A score: the moves and the pushes one solution took. */
  datatype Score = Score(moves: int, pushes: int)

  /** The two records of a level: the best score by moves and the best by pushes. */
  datatype Best = Best(byMoves: Score, byPushes: Score)

  /** The records of a level nobody has solved yet. */
  const Unplayed: Best := Best(Score(MaxMoves, MaxMoves), Score(MaxMoves, MaxMoves))

  /**
   * The document the state is saved as: the level and the score table. The
   * table's keys are `str(level)` in the file; `IntToStringInjective` makes
   * keying it by the level number the same table.
   */
  datatype Data = Data(level: int, scores: map<int, Best>)

  /** The table a new state starts with: every level from 1 to `nLevels`, unplayed. */
  function InitialScores(nLevels: int): (m: map<int, Best>)
    ensures forall l :: l in m <==> 1 <= l <= nLevels
    ensures forall l :: l in m ==> m[l] == Unplayed
    decreases nLevels
  {
    if nLevels < 1 then map[] else InitialScores(nLevels - 1)[nLevels := Unplayed]
  }

  /** `max(1, min(level, n_levels))`. */
  function Clamp(level: int, nLevels: int): (r: int)
    ensures 1 <= r && (nLevels >= 1 ==> r <= nLevels)
    ensures 1 <= level <= nLevels ==> r == level
    ensures nLevels >= 1 && level > nLevels ==> r == nLevels
    ensures level < 1 ==> r == 1
    ensures nLevels < 1 ==> r == 1
  {
    var m := if level < nLevels then level else nLevels;
    if 1 < m then m else 1
  }

  /** The record a mode asks for: by moves for `'moves'`, by pushes for anything else. */
  function Chosen(b: Best, mode: string): Score {
    if mode == "moves" then b.byMoves else b.byPushes
  }

  /** `MAX_MOVES in best`: the record still holds the sentinel. */
  predicate Unset(s: Score) {
    s.moves == MaxMoves || s.pushes == MaxMoves
  }

  /**
   * The records after a solution with `moves` and `pushes`: each record is
   * replaced by the new score when the new score is strictly better in that
   * record's own measure.
   */
  function Improved(b: Best, moves: int, pushes: int): Best {
    Best(if moves < b.byMoves.moves then Score(moves, pushes) else b.byMoves,
         if pushes < b.byPushes.pushes then Score(moves, pushes) else b.byPushes)
  }

  /**
   * The two records are kept independently: each holds the smaller of its
   * old measure and the new one, and it changes only when the new score is
   * strictly better in that measure (a tie keeps the older score).
   */
  lemma ImprovedKeepsBest(b: Best, moves: int, pushes: int)
    ensures var r := Improved(b, moves, pushes);
      && r.byMoves.moves == (if moves < b.byMoves.moves then moves else b.byMoves.moves)
      && r.byPushes.pushes == (if pushes < b.byPushes.pushes then pushes else b.byPushes.pushes)
      && (r.byMoves != b.byMoves <==> moves < b.byMoves.moves && b.byMoves != Score(moves, pushes))
      && (r.byPushes != b.byPushes <==> pushes < b.byPushes.pushes && b.byPushes != Score(moves, pushes))
      && (r.byMoves == b.byMoves || r.byMoves == Score(moves, pushes))
      && (r.byPushes == b.byPushes || r.byPushes == Score(moves, pushes))
  {
  }

  /** Storing the same score twice changes nothing the second time. */
  lemma ImprovedIdempotent(b: Best, moves: int, pushes: int)
    ensures Improved(Improved(b, moves, pushes), moves, pushes) == Improved(b, moves, pushes)
  {
  }

  /** The records after a series of solutions, stored one after the other. */
  function AfterPlays(b: Best, plays: seq<Score>): Best
    decreases |plays|
  {
    if |plays| == 0 then b
    else
      var last := plays[|plays| - 1];
      Improved(AfterPlays(b, plays[..|plays| - 1]), last.moves, last.pushes)
  }

  /**
   * After any series of solutions, the record by moves has the fewest moves
   * of all of them (and of the starting record) and is one of them (or the
   * starting record); likewise the record by pushes.
   */
  lemma {:induction false} AfterPlaysIsBest(b: Best, plays: seq<Score>)
    ensures var r := AfterPlays(b, plays);
      && r.byMoves.moves <= b.byMoves.moves
      && r.byPushes.pushes <= b.byPushes.pushes
      && (forall i :: 0 <= i < |plays| ==> r.byMoves.moves <= plays[i].moves && r.byPushes.pushes <= plays[i].pushes)
      && (r.byMoves == b.byMoves || r.byMoves in plays)
      && (r.byPushes == b.byPushes || r.byPushes in plays)
    decreases |plays|
  {
    if |plays| > 0 {
      var init := plays[..|plays| - 1];
      var last := plays[|plays| - 1];
      AfterPlaysIsBest(b, init);
      assert forall i :: 0 <= i < |init| ==> init[i] == plays[i];
      assert forall s :: s in init ==> s in plays;
    }
  }

  /**
   * `retrieve_best_score` on one level's records: nothing while the asked-for
   * record still holds the `MAX_MOVES` sentinel, else that record.
   */
  function Retrieve(b: Best, mode: string): (r: Option<Score>)
    ensures r.None? <==> Unset(Chosen(b, mode))
    ensures r.Some? ==> r.value == Chosen(b, mode)
  {
    var best := Chosen(b, mode);
    if best.moves == MaxMoves || best.pushes == MaxMoves then None else Some(best)
  }

  /**
   * `store_score` then `retrieve_best_score`: a new score below the sentinel
   * is what the mode retrieves exactly when it beats that mode's record in
   * the mode's own measure; otherwise the mode retrieves what it did before.
   */
  lemma RetrieveAfterImproved(b: Best, moves: int, pushes: int, mode: string)
    requires moves < MaxMoves && pushes < MaxMoves
    ensures var better := if mode == "moves" then moves < b.byMoves.moves else pushes < b.byPushes.pushes;
      Retrieve(Improved(b, moves, pushes), mode) == if better then Some(Score(moves, pushes)) else Retrieve(b, mode)
  {
  }

  /**
   * The first solution of a level, when it is below the sentinel in both
   * measures, becomes both of its records: either mode retrieves it.
   */
  lemma FirstSolutionRecorded(moves: int, pushes: int, mode: string)
    requires moves < MaxMoves && pushes < MaxMoves
    ensures Retrieve(Improved(Unplayed, moves, pushes), mode) == Some(Score(moves, pushes))
  {
  }

  /** The saved state: `data['level']`, `data['scores']` and the number of levels. */
  class SavedState {
    var nLevels: int
    var level: int
    var scores: map<int, Best>
    /** Every document written by `save()`, in order. */
    ghost var saves: seq<Data>

    /** `data`, the document `save()` writes. */
    function Doc(): Data
      reads this
    {
      Data(level, scores)
    }

    /**
     * `SavedState(n_levels)`: the saved document when the file exists (its
     * reading and JSON decoding are not part of this model), else a fresh one
     * at level 0 with every level unplayed, saved at once.
     */
    constructor(nLevels: int, saved: Option<Data>)
      ensures this.nLevels == nLevels
      ensures saved.Some? ==> Doc() == saved.value && saves == []
      ensures saved.None? ==> level == 0 && scores == InitialScores(nLevels) && saves == [Doc()]
    {
      this.nLevels := nLevels;
      if saved.Some? {
        level := saved.value.level;
        scores := saved.value.scores;
        saves := [];
      } else {
        level := 0;
        scores := InitialScores(nLevels);
        saves := [Data(0, InitialScores(nLevels))];
      }
    }

    /** The `level` setter: a new value is stored and saved; the same value again writes nothing. */
    method SetLevel(l: int)
      modifies this
      ensures level == l && scores == old(scores) && nLevels == old(nLevels)
      ensures saves == old(saves) + (if old(level) != l then [Doc()] else [])
    {
      if level != l {
        level := l;
        saves := saves + [Doc()];
      }
    }

    /**
     * `select_next_level(step)`: step through the saving setter, then clamp
     * through it again; the level ends in `[1, n_levels]`, and at a boundary
     * both the overshooting value and the clamped one are saved.
     */
    method SelectNextLevel(step: int)
      modifies this
      ensures level == Clamp(old(level) + step, nLevels)
      ensures 1 <= level && (nLevels >= 1 ==> level <= nLevels)
      ensures scores == old(scores) && nLevels == old(nLevels)
      ensures saves == old(saves)
        + (if step != 0 then [Data(old(level) + step, scores)] else [])
        + (if level != old(level) + step then [Doc()] else [])
    {
      SetLevel(level + step);
      SetLevel(Clamp(level, nLevels));
    }

    /**
     * `retrieve_best_score(mode)`: the current level's record for the mode,
     * `None` for `(None, None)` while it holds the sentinel; a level missing
     * from the table raises `KeyError`.
     */
    function RetrieveBestScore(mode: string): (r: Result<Option<Score>>)
      reads this
      ensures level !in scores <==> r == Err(KeyError)
      ensures level in scores ==> r == Ok(Retrieve(scores[level], mode))
    {
      if level !in scores then Err(KeyError) else Ok(Retrieve(scores[level], mode))
    }

    /**
     * `store_score(moves, pushes)`: the current level's records are improved
     * by the new score and written back only when one of them changed;
     * nothing is saved. A level missing from the table raises `KeyError`.
     */
    method StoreScore(moves: int, pushes: int) returns (o: Outcome)
      modifies this
      ensures level == old(level) && nLevels == old(nLevels) && saves == old(saves)
      ensures old(level) !in old(scores) ==> o == Fail(KeyError) && scores == old(scores)
      ensures old(level) in old(scores) ==>
        o == Pass && scores == old(scores)[level := Improved(old(scores)[level], moves, pushes)]
    {
      if level !in scores {
        return Fail(KeyError);
      }
      var best := scores[level];
      var byMoves, byPushes := best.byMoves, best.byPushes;
      var newEntry := false;
      if moves < byMoves.moves {
        byMoves := Score(moves, pushes);
        newEntry := true;
      }
      if pushes < byPushes.pushes {
        byPushes := Score(moves, pushes);
        newEntry := true;
      }
      if newEntry {
        scores := scores[level := Best(byMoves, byPushes)];
      }
      return Pass;
    }
  }
}
