/**
 * The read-only queries of `GameRuleObserver`: `_is_inside_map`,
 * `_is_exist`, `_observe`, `_is_collide`, `_is_grammar_valid`,
 * `_predicate_analyze` and `is_directly_win`. They only read
 * `gameState.units`, so they are stated here on a snapshot of it: the
 * states of the units in board order. A block that `_is_exist` returns is
 * reported by its position in that list.
 */
module Board {
  import opened Wrappers
  import opened Geometry
  import opened Blocks
  import opened Words
  import opened Streams
  import opened Rules

  /**
   * The constants the source imports from its `Blocks` and `GameState`
   * modules: `DIRECTION` (up, down, left, right), `NOUN_WORD_BANK`,
   * `VERB_WORD_BANK`, `WORLD_MAX_X/Y` and `CELL_SIZE_X/Y`.
   */
  datatype Settings = Settings(
    directions: seq<Vec>, nounWords: set<string>, verbWords: set<string>,
    worldMaxX: int, worldMaxY: int, cellSizeX: int, cellSizeY: int)

  /** Four directions, so that the grammar functions have their two pairs of slots. */
  type Config = c: Settings | |c.directions| == 4
    witness Settings([Vec(0, -1), Vec(0, 1), Vec(-1, 0), Vec(1, 0)], {}, {}, 1, 1, 1, 1)

  /**
   * `_is_inside_map`: the bounds are in scaled units, WORLD_MAX * CELL_SIZE.
   * A position is on the map exactly when both coordinates lie in
   * [0, WORLD_MAX * CELL_SIZE).
   */
  predicate IsInsideMap(cfg: Config, p: Vec)
    ensures IsInsideMap(cfg, p) <==> 0 <= p.x < cfg.worldMaxX * cfg.cellSizeX && 0 <= p.y < cfg.worldMaxY * cfg.cellSizeY
  {
    if p.x < 0 || p.x >= cfg.worldMaxX * cfg.cellSizeX
       || p.y < 0 || p.y >= cfg.worldMaxY * cfg.cellSizeY then false
    else true
  }

  /** `u` is what `_is_exist` looks for at `p`: it stands there and is not passable. */
  predicate SolidAt(u: BlockState, p: Vec) {
    u.loc == p && !u.passable
  }

  /** The loop of `_is_exist` from position `i` on: the first unit solid at `p`. */
  function FirstSolidFrom(board: seq<BlockState>, p: Vec, i: nat): (r: Option<nat>)
    requires i <= |board|
    ensures r.Some? ==> i <= r.value < |board| && SolidAt(board[r.value], p)
    ensures r.Some? ==> forall j :: i <= j < r.value ==> !SolidAt(board[j], p)
    ensures r.None? ==> forall j :: i <= j < |board| ==> !SolidAt(board[j], p)
    decreases |board| - i
  {
    if i == |board| then None
    else if SolidAt(board[i], p) then Some(i)
    else FirstSolidFrom(board, p, i + 1)
  }

  function FirstSolid(board: seq<BlockState>, p: Vec): Option<nat> {
    FirstSolidFrom(board, p, 0)
  }

  /**
   * `_is_exist`: nothing for the zero direction; otherwise the first
   * unit in board order that stands at `here + d` and is not passable,
   * or nothing when there is none.
   */
  function Exist(board: seq<BlockState>, here: Vec, d: Vec): (r: Option<nat>)
    ensures d == Zero ==> r == None
    ensures r.Some? ==> r.value < |board| && SolidAt(board[r.value], here.Plus(d))
    ensures r.Some? ==> forall j :: 0 <= j < r.value ==> !SolidAt(board[j], here.Plus(d))
    ensures d != Zero && r.None? ==> forall j :: 0 <= j < |board| ==> !SolidAt(board[j], here.Plus(d))
  {
    if d != Zero then FirstSolid(board, here.Plus(d)) else None
  }

  /**
   * `line` (positions on the board) is what `_is_exist_line` collects
   * from `p` along `d`: its k-th block is the one `_is_exist` finds at
   * `p + (k+1)*d`, and `_is_exist` finds nothing one step past its end.
   */
  ghost predicate IsLine(board: seq<BlockState>, p: Vec, d: Vec, line: seq<nat>) {
    if d == Zero then
      line == []
    else
      && (forall k :: 0 <= k < |line| ==> FirstSolid(board, p.Plus(Scale(d, k + 1))) == Some(line[k]))
      && FirstSolid(board, p.Plus(Scale(d, |line| + 1))) == None
  }

  /** A list without repetitions drawn from `ys` is no longer than `ys`. */
  lemma {:induction false} UniqueBound<T>(xs: seq<T>, ys: seq<T>)
    requires forall i, j :: 0 <= i < j < |xs| ==> xs[i] != xs[j]
    requires forall x :: x in xs ==> x in ys
    ensures |xs| <= |ys|
    decreases |xs|
  {
    if xs != [] {
      var x := xs[0];
      assert x in ys;
      var m :| 0 <= m < |ys| && ys[m] == x;
      var rest := ys[..m] + ys[m + 1..];
      forall y | y in xs[1..] ensures y in rest {
        var i :| 1 <= i < |xs| && xs[i] == y;
        assert y != x;
        assert y in ys;
        var n :| 0 <= n < |ys| && ys[n] == y;
        if n < m {
          assert rest[n] == y;
        } else {
          assert rest[n - 1] == y;
        }
      }
      UniqueBound(xs[1..], rest);
    }
  }

  /**
   * The units met walking from `p` along a non-zero `d`, the k-th at
   * `p + (k+1)*d`, are all different and none stands at `p`; so there
   * are at most as many of them as units.
   */
  lemma WalkFacts(board: seq<BlockState>, p: Vec, d: Vec, line: seq<nat>)
    requires d != Zero
    requires forall k :: 0 <= k < |line| ==> line[k] < |board| && board[line[k]].loc == p.Plus(Scale(d, k + 1))
    ensures forall i, j :: 0 <= i < j < |line| ==> line[i] != line[j]
    ensures forall k :: 0 <= k < |line| ==> board[line[k]].loc != p
    ensures |line| <= |board|
  {
    forall i, j | 0 <= i < j < |line| ensures line[i] != line[j] {
      ScaleInjective(d, i + 1, j + 1);
    }
    forall k | 0 <= k < |line| ensures board[line[k]].loc != p {
      ScaleInjective(d, k + 1, 0);
    }
    var positions := seq(|board|, i requires 0 <= i < |board| => i);
    forall x | x in line ensures x in positions {
      assert positions[x] == x;
    }
    UniqueBound(line, positions);
  }

  /**
   * `_observe`: the four neighbours of `here` in `DIRECTION` order (up,
   * down, left, right); slot i holds what `_is_exist` finds in direction
   * i: the first solid unit at `here + DIRECTION[i]`, or nothing.
   */
  function Observe(cfg: Config, board: seq<BlockState>, here: Vec): (r: seq<Option<nat>>)
    ensures |r| == 4
    ensures forall i :: 0 <= i < 4 ==> r[i] == Exist(board, here, cfg.directions[i])
  {
    var dirs := cfg.directions;
    [Exist(board, here, dirs[0]), Exist(board, here, dirs[1]), Exist(board, here, dirs[2]), Exist(board, here, dirs[3])]
  }

  /**
   * `_is_collide`: the first solid unit in direction `d` exists and cannot
   * be pushed. So a move collides exactly when, in a non-zero direction,
   * some unit is solid at the target cell, no earlier unit is, and that
   * unit is not moveable.
   */
  predicate IsCollide(board: seq<BlockState>, here: Vec, d: Vec)
    ensures IsCollide(board, here, d) <==>
      exists i :: 0 <= i < |board| && d != Zero && SolidAt(board[i], here.Plus(d)) && !board[i].moveable
                  && forall j :: 0 <= j < i ==> !SolidAt(board[j], here.Plus(d))
  {
    var blockDirection := Exist(board, here, d);
    if blockDirection.Some? && !board[blockDirection.value].moveable && !board[blockDirection.value].passable then
      true
    else
      false
  }

  // ---------------------------------------------------------------------
  // Grammar recognition
  // ---------------------------------------------------------------------

  /** A NOUN-IS-VERB pair: two word blocks, a noun word then a verb word. */
  predicate PropertyPair(cfg: Config, first: BlockState, second: BlockState) {
    first.isText && second.isText && first.word in cfg.nounWords && second.word in cfg.verbWords
  }

  /** A NOUN-IS-YOU or NOUN-IS-NOUN pair. */
  predicate IdentityPair(cfg: Config, first: BlockState, second: BlockState) {
    && first.isText && second.isText && first.word in cfg.nounWords
    && (second.word == "you" || second.word in cfg.nounWords)
  }

  /** The unit in a slot of `_observe`. */
  function At(board: seq<BlockState>, o: Option<nat>): Option<BlockState>
    requires o.Some? ==> o.value < |board|
  {
    match o
    case None => None
    case Some(i) => Some(board[i])
  }

  /**
   * `_is_grammar_valid`: slots (0, 1) hold the units above and below
   * `here`, and slots (2, 3) those left and right of it, when that pair
   * is a NOUN-IS-VERB pair; otherwise both slots of the pair are empty.
   * Nothing checks that the block at `here` is an "is" block.
   */
  function GrammarValid(cfg: Config, board: seq<BlockState>, here: Vec): (r: seq<Option<BlockState>>)
    ensures |r| == 4
    ensures r[0].Some? <==> r[1].Some?
    ensures r[2].Some? <==> r[3].Some?
    ensures forall i :: 0 <= i < 4 && r[i].Some? ==>
              r[i].value in board && SolidAt(r[i].value, here.Plus(cfg.directions[i]))
    ensures r[0].Some? ==> PropertyPair(cfg, r[0].value, r[1].value)
    ensures r[2].Some? ==> PropertyPair(cfg, r[2].value, r[3].value)
    ensures var o := Observe(cfg, board, here);
      && (r[0].None? <==> o[0].None? || o[1].None? || !PropertyPair(cfg, board[o[0].value], board[o[1].value]))
      && (r[2].None? <==> o[2].None? || o[3].None? || !PropertyPair(cfg, board[o[2].value], board[o[3].value]))
      && (r[0].Some? ==> r[0] == At(board, o[0]) && r[1] == At(board, o[1]))
      && (r[2].Some? ==> r[2] == At(board, o[2]) && r[3] == At(board, o[3]))
  {
    var around := Observe(cfg, board, here);
    var up, down, left, right := At(board, around[0]), At(board, around[1]), At(board, around[2]), At(board, around[3]);
    var vertical := up.Some? && down.Some? && PropertyPair(cfg, up.value, down.value);
    var horizontal := left.Some? && right.Some? && PropertyPair(cfg, left.value, right.value);
    [if vertical then up else None, if vertical then down else None,
     if horizontal then left else None, if horizontal then right else None]
  }

  /**
   * `_predicate_analyze`: as `_is_grammar_valid`, for NOUN-IS-YOU and
   * NOUN-IS-NOUN pairs.
   */
  function PredicateAnalyze(cfg: Config, board: seq<BlockState>, here: Vec): (r: seq<Option<BlockState>>)
    ensures |r| == 4
    ensures r[0].Some? <==> r[1].Some?
    ensures r[2].Some? <==> r[3].Some?
    ensures forall i :: 0 <= i < 4 && r[i].Some? ==>
              r[i].value in board && SolidAt(r[i].value, here.Plus(cfg.directions[i]))
    ensures r[0].Some? ==> IdentityPair(cfg, r[0].value, r[1].value)
    ensures r[2].Some? ==> IdentityPair(cfg, r[2].value, r[3].value)
    ensures var o := Observe(cfg, board, here);
      && (r[0].None? <==> o[0].None? || o[1].None? || !IdentityPair(cfg, board[o[0].value], board[o[1].value]))
      && (r[2].None? <==> o[2].None? || o[3].None? || !IdentityPair(cfg, board[o[2].value], board[o[3].value]))
      && (r[0].Some? ==> r[0] == At(board, o[0]) && r[1] == At(board, o[1]))
      && (r[2].Some? ==> r[2] == At(board, o[2]) && r[3] == At(board, o[3]))
  {
    var around := Observe(cfg, board, here);
    var up, down, left, right := At(board, around[0]), At(board, around[1]), At(board, around[2]), At(board, around[3]);
    var vertical := up.Some? && down.Some? && IdentityPair(cfg, up.value, down.value);
    var horizontal := left.Some? && right.Some? && IdentityPair(cfg, left.value, right.value);
    [if vertical then up else None, if vertical then down else None,
     if horizontal then left else None, if horizontal then right else None]
  }

  /**
   * The NOUN-IS-VERB sentences around the blocks of `isBlocks`, in the
   * order `_update_state` and `is_directly_win` meet them: each is a
   * pair of solid word units of the board, a noun word then a verb word.
   */
  function Sentences(cfg: Config, board: seq<BlockState>, isBlocks: seq<BlockState>): (r: seq<Sentence>)
    ensures forall s :: s in r ==>
              s.subject in board && s.complement in board && PropertyPair(cfg, s.subject, s.complement)
    decreases |isBlocks|
  {
    if isBlocks == [] then
      []
    else
      var slots := GrammarValid(cfg, board, isBlocks[|isBlocks| - 1].loc);
      SlotSentencesSound(slots, 4);
      Sentences(cfg, board, isBlocks[..|isBlocks| - 1]) + SlotSentences(slots, 4)
  }

  /** The sentences of `isBlocks[..n + 1]` extend those of `isBlocks[..n]` by the slots around `isBlocks[n]`. */
  lemma SentencesStep(cfg: Config, board: seq<BlockState>, isBlocks: seq<BlockState>, n: int)
    requires 0 <= n < |isBlocks|
    ensures Sentences(cfg, board, isBlocks[..n + 1])
         == Sentences(cfg, board, isBlocks[..n]) + SlotSentences(GrammarValid(cfg, board, isBlocks[n].loc), 4)
  {
    var next := isBlocks[..n + 1];
    assert next[..|next| - 1] == isBlocks[..n];
  }

  /**
   * Nothing is dropped: every filled pair (i, i + 1) of the grammar slots
   * around any block of `isBlocks` yields its sentence.
   */
  lemma {:induction false} SentencesComplete(cfg: Config, board: seq<BlockState>, isBlocks: seq<BlockState>, n: int, i: int)
    requires 0 <= n < |isBlocks| && (i == 0 || i == 2)
    requires GrammarValid(cfg, board, isBlocks[n].loc)[i].Some?
    ensures var slots := GrammarValid(cfg, board, isBlocks[n].loc);
      Sentence(slots[i].value, slots[i + 1].value) in Sentences(cfg, board, isBlocks)
    decreases |isBlocks|
  {
    var slots := GrammarValid(cfg, board, isBlocks[n].loc);
    var s := Sentence(slots[i].value, slots[i + 1].value);
    var front := isBlocks[..|isBlocks| - 1];
    var last := SlotSentences(GrammarValid(cfg, board, isBlocks[|isBlocks| - 1].loc), 4);
    assert Sentences(cfg, board, isBlocks) == Sentences(cfg, board, front) + last;
    if n == |isBlocks| - 1 {
      SlotSentencesComplete(slots, i, 4);
      assert s in last;
    } else {
      assert front[n] == isBlocks[n];
      SentencesComplete(cfg, board, front, n, i);
      assert s in Sentences(cfg, board, front);
    }
  }

  /**
   * `is_directly_win`: true exactly when exactly two of the sentences
   * have the predicate word "win" or "you" and their two subjects carry
   * the same word.
   */
  function IsDirectlyWin(cfg: Config, board: seq<BlockState>, isBlocks: seq<BlockState>): (r: bool)
    ensures r <==> TwoWinYouSameWord(Sentences(cfg, board, isBlocks))
  {
    DirectWin(Sentences(cfg, board, isBlocks))
  }

  // ---------------------------------------------------------------------
  // Push and move, on values
  // ---------------------------------------------------------------------

  /** `_push`'s check: every block of the line is inside the map and moveable. */
  ghost predicate CanPush(cfg: Config, board: seq<BlockState>, line: seq<nat>) {
    forall k :: 0 <= k < |line| && line[k] < |board| ==>
      IsInsideMap(cfg, board[line[k]].loc) && board[line[k]].moveable
  }

  /** The board with the units at the positions in `moved` one step further along `d`. */
  function Shifted(board: seq<BlockState>, moved: set<nat>, d: Vec): (r: seq<BlockState>)
    ensures |r| == |board|
    ensures forall k :: 0 <= k < |r| ==> r[k].(loc := board[k].loc) == board[k]
    ensures forall k :: 0 <= k < |r| && k in moved ==> r[k].loc == board[k].loc.Plus(d)
    ensures forall k :: 0 <= k < |r| && k !in moved ==> r[k] == board[k]
  {
    seq(|board|, k requires 0 <= k < |board| => if k in moved then board[k].(loc := board[k].loc.Plus(d)) else board[k])
  }

  /** `type(nextBlock).__name__` for what `_is_exist` returned: "NoneType" for nothing. */
  function TypeName(board: seq<BlockState>, o: Option<nat>): string
    requires o.Some? ==> o.value < |board|
  {
    match o
    case None => "NoneType"
    case Some(i) => board[i].kind
  }

  /** Some key of the win stream, in order, is True and strips to `name`. */
  ghost predicate WinsOn(win: Stream, name: string) {
    exists i :: 0 <= i < |win.keys| && win.keys[i] in win.flags && win.flags[win.keys[i]] && StripNoun(win.keys[i]) == name
  }
}
