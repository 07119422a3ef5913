/**
 * The level archive of the Sokoban game (`LevelStore` in `toys/sokoban.py`):
 * level `k` is the archive member `level{k}.sok`, one text line per grid
 * row, with the player written `@` in the archive and `X` in the game.
 */
module SokobanLevels {

  import opened Wrappers
  import opened PyStr

  /** The archive: each member's name and its text, already decoded from UTF-8. */
  datatype LevelStore = LevelStore(members: map<string, string>)

  /** The archive member holding a level: `f'level{level}.sok'`. */
  function MemberName(level: int): string {
    "level" + IntToString(level) + ".sok"
  }

  /** Different levels live in different members. */
  lemma MemberNamesDistinct(a: int, b: int)
    requires MemberName(a) == MemberName(b)
    ensures a == b
  {
    var na := MemberName(a);
    var sa := IntToString(a);
    var sb := IntToString(b);
    assert |sa| == |sb|;
    assert sa == na[5..|na| - 4] == sb;
    IntToStringInjective(a, b);
  }

  /**
   * `retrieve_content`: the lines of the level's text with every `@` turned
   * into `X`; reading a member the archive does not have raises `KeyError`.
   */
  function RetrieveContent(store: LevelStore, level: int): (r: Result<seq<string>>)
    ensures MemberName(level) !in store.members <==> r == Err(KeyError)
    ensures r.Ok? ==>
      var lines := SplitLines(store.members[MemberName(level)]);
      && |r.value| == |lines|
      && (forall i :: 0 <= i < |lines| ==> |r.value[i]| == |lines[i]|)
      && (forall i, j :: 0 <= i < |lines| && 0 <= j < |lines[i]| ==>
            r.value[i][j] != '@' && (lines[i][j] != '@' ==> r.value[i][j] == lines[i][j]))
      && (forall i, j :: 0 <= i < |lines| && 0 <= j < |lines[i]| && lines[i][j] == '@' ==> r.value[i][j] == 'X')
  {
    var name := MemberName(level);
    if name !in store.members then Err(KeyError)
    else
      var lines := SplitLines(store.members[name]);
      Ok(seq(|lines|, i requires 0 <= i < |lines| => ReplaceChar(lines[i], '@', 'X')))
  }

  /** `len(level_store)`: the number of members in the archive. */
  function Len(store: LevelStore): (n: nat)
    ensures n == |store.members.Keys|
  {
    |store.members|
  }
}
