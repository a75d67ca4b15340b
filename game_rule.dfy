/**
 * `GameRuleObserver`: the rule engine of the puzzle. It reads the board
 * (`gameState.units`), recognises NOUN-IS-VERB and NOUN-IS-NOUN/YOU
 * sentences around word blocks, rebuilds the four state streams, turns
 * them into per-block capability flags, moves and pushes blocks, and
 * transforms one kind of block into another.
 */
module GameRule {
  import opened Wrappers
  import opened Geometry
  import opened Blocks
  import opened Words
  import opened Streams
  import opened Rules
  import opened Board

  /** The board positions a push moves: the pushed line and the pusher itself. */
  ghost function Moved(units: seq<Block>, b: Block, line: seq<nat>): set<nat> {
    set k | 0 <= k < |units| && (k in line || units[k] == b)
  }

  class Observer {
    const cfg: Config
    /** `gameState.units`: the board, in insertion order. */
    var units: seq<Block>
    /** `gameState.playerState`: latched to true by a win. */
    var playerState: bool
    /** The module-level dicts `stopStateStream` ... `winStateStream`, shared by all observers. */
    var stop: Stream
    var push: Stream
    var you: Stream
    var win: Stream

    /**
     * Every block occurs once on the board, and the four streams list the
     * same keys in the same order (they start empty and are always
     * rebuilt together from the same sentences), so `endow` can look up
     * every stop key in the other three.
     */
    ghost predicate Valid()
      reads this
    {
      && Distinct(units)
      && stop.Wf() && push.Wf() && you.Wf() && win.Wf()
      && push.keys == stop.keys && you.keys == stop.keys && win.keys == stop.keys
    }

    /**
     * `__init__` keeps the game state only. The four streams are module
     * globals shared by every observer, so a new observer sees whatever
     * they hold at that moment (empty only before the first rebuild).
     */
    constructor (cfg: Config, units: seq<Block>, playerState: bool, stop: Stream, push: Stream, you: Stream, win: Stream)
      requires Distinct(units)
      requires stop.Wf() && push.Wf() && you.Wf() && win.Wf()
      requires push.keys == stop.keys && you.keys == stop.keys && win.keys == stop.keys
      ensures Valid()
      ensures this.cfg == cfg && this.units == units && this.playerState == playerState
      ensures this.stop == stop && this.push == push && this.you == you && this.win == win
    {
      this.cfg, this.units, this.playerState := cfg, units, playerState;
      this.stop, this.push, this.you, this.win := stop, push, you, win;
    }

    // -------------------------------------------------------------------
    // Moving
    // -------------------------------------------------------------------

    /**
     * `_is_exist_line`: the contiguous run of solid units next to `b`
     * along `d`, as `IsLine` describes it (`at` holds their board
     * positions). The run never contains `b` and has no more members
     * than there are units, which is why the walk stops.
     */
    method ExistLine(b: Block, d: Vec) returns (line: seq<Block>, ghost at: seq<nat>)
      ensures IsLine(StatesOf(units), b.loc, d, at)
      ensures |line| == |at| <= |units|
      ensures forall k :: 0 <= k < |at| ==> at[k] < |units| && line[k] == units[at[k]] && line[k] != b
      ensures forall i, j :: 0 <= i < j < |at| ==> at[i] != at[j]
    {
      var board := StatesOf(units);
      var nextBlock := Exist(board, b.loc, d);
      line, at := [], [];
      while nextBlock.Some? && !board[nextBlock.value].passable
        invariant d == Zero ==> nextBlock == None && at == []
        invariant d != Zero ==> nextBlock == FirstSolid(board, b.loc.Plus(Scale(d, |at| + 1)))
        invariant forall k :: 0 <= k < |at| ==> FirstSolid(board, b.loc.Plus(Scale(d, k + 1))) == Some(at[k])
        invariant |line| == |at| <= |units|
        invariant forall k :: 0 <= k < |at| ==> at[k] < |units| && line[k] == units[at[k]]
        decreases |units| - |at|
      {
        var found := nextBlock.value;
        WalkFacts(board, b.loc, d, at + [found]);
        line, at := line + [units[found]], at + [found];
        ScaleStep(b.loc, d, |at|);
        nextBlock := Exist(board, board[found].loc, d);
      }
      if d != Zero {
        WalkFacts(board, b.loc, d, at);
      }
    }

    /**
     * `_push`: when every unit of the line in front of `b` is inside the
     * map (at its current cell) and moveable, `b` and the whole line
     * step along `d`; otherwise nothing moves. Nothing else changes.
     */
    method Push(b: Block, d: Vec) returns (ghost at: seq<nat>, ghost pushed: bool)
      requires Distinct(units)
      modifies b, units
      ensures IsLine(old(StatesOf(units)), old(b.loc), d, at)
      ensures pushed == CanPush(cfg, old(StatesOf(units)), at)
      ensures b.State() == if pushed then old(b.State()).(loc := old(b.loc).Plus(d)) else old(b.State())
      ensures pushed ==> StatesOf(units) == Shifted(old(StatesOf(units)), Moved(units, b, at), d)
      ensures !pushed ==> StatesOf(units) == old(StatesOf(units))
    {
      ghost var board := StatesOf(units);
      var nextBlockLine;
      nextBlockLine, at := ExistLine(b, d);
      var isPushSign := Pushable(nextBlockLine);
      pushed := isPushSign;
      assert pushed == CanPush(cfg, board, at);
      if isPushSign {
        ShiftLine(b, nextBlockLine, at, d);
      }
    }

    /** The first loop of `_push`: every unit of the line is inside the map and moveable. */
    method Pushable(line: seq<Block>) returns (isPushSign: bool)
      ensures isPushSign <==> forall k :: 0 <= k < |line| ==> IsInsideMap(cfg, line[k].loc) && line[k].moveable
    {
      isPushSign := true;
      var i := 0;
      while i < |line|
        invariant 0 <= i <= |line|
        invariant forall k :: 0 <= k < i ==> IsInsideMap(cfg, line[k].loc) && line[k].moveable
      {
        if !IsInsideMap(cfg, line[i].loc) || !line[i].moveable {
          isPushSign := false;
          break;
        }
        i := i + 1;
      }
    }

    /** The second half of `_push`: `b` and then every unit of the line step along `d`. */
    method ShiftLine(b: Block, line: seq<Block>, ghost at: seq<nat>, d: Vec)
      requires Distinct(units)
      requires |line| == |at|
      requires forall k :: 0 <= k < |at| ==> at[k] < |units| && line[k] == units[at[k]] && line[k] != b
      requires forall i, j :: 0 <= i < j < |at| ==> at[i] != at[j]
      modifies b, units
      ensures b.State() == old(b.State()).(loc := old(b.loc).Plus(d))
      ensures StatesOf(units) == Shifted(old(StatesOf(units)), Moved(units, b, at), d)
    {
      ghost var board := StatesOf(units);
      b.loc := b.loc.Plus(d);
      for n := 0 to |line|
        invariant b.State() == old(b.State()).(loc := old(b.loc).Plus(d))
        invariant forall k :: 0 <= k < |units| ==>
                    units[k].State() == if units[k] == b || k in at[..n] then board[k].(loc := board[k].loc.Plus(d)) else board[k]
      {
        assert at[..n + 1] == at[..n] + [at[n]];
        line[n].loc := line[n].loc.Plus(d);
      }
      assert at[..|at|] == at;
    }

    /** The guard of `_move`: `b` is moveable and controllable and the target cell is on the map. */
    predicate CanMove(b: Block, d: Vec)
      reads b
    {
      b.moveable && b.controllable && IsInsideMap(cfg, b.loc.Plus(d))
    }

    /**
     * `_move`. A block that may not move stays put. Into a cell with no
     * solid unit it steps alone, and the player wins if some true key
     * of the win stream strips to the type name of nothing ("NoneType").
     * Against an unmoveable solid unit it stays put; against a moveable
     * one it pushes.
     */
    method Move(b: Block, d: Vec) returns (ghost at: seq<nat>, ghost pushed: bool)
      requires Valid()
      modifies this`playerState, b, units
      ensures !old(CanMove(b, d)) || old(IsCollide(StatesOf(units), b.loc, d)) ==>
                b.State() == old(b.State()) && StatesOf(units) == old(StatesOf(units)) && playerState == old(playerState)
      ensures old(CanMove(b, d)) && old(Exist(StatesOf(units), b.loc, d)).None? ==>
                && b.State() == old(b.State()).(loc := old(b.loc).Plus(d))
                && StatesOf(units) == Shifted(old(StatesOf(units)), Moved(units, b, []), d)
                && (playerState <==> old(playerState) || WinsOn(win, "NoneType"))
      ensures old(CanMove(b, d)) && old(Exist(StatesOf(units), b.loc, d)).Some? && !old(IsCollide(StatesOf(units), b.loc, d)) ==>
                && IsLine(old(StatesOf(units)), old(b.loc), d, at)
                && pushed == CanPush(cfg, old(StatesOf(units)), at)
                && b.State() == (if pushed then old(b.State()).(loc := old(b.loc).Plus(d)) else old(b.State()))
                && StatesOf(units) == (if pushed then Shifted(old(StatesOf(units)), Moved(units, b, at), d) else old(StatesOf(units)))
                && playerState == old(playerState)
    {
      at, pushed := [], false;
      if b.moveable && b.controllable {
        var newLocation := b.loc.Plus(d);
        if IsInsideMap(cfg, newLocation) {
          at, pushed := MoveInside(b, d);
        }
      }
    }

    /** `_move` once its guard holds: step into an empty cell, or push unless blocked. */
    method MoveInside(b: Block, d: Vec) returns (ghost at: seq<nat>, ghost pushed: bool)
      requires Valid()
      modifies this`playerState, b, units
      ensures old(IsCollide(StatesOf(units), b.loc, d)) ==>
                b.State() == old(b.State()) && StatesOf(units) == old(StatesOf(units)) && playerState == old(playerState)
      ensures old(Exist(StatesOf(units), b.loc, d)).None? ==>
                && b.State() == old(b.State()).(loc := old(b.loc).Plus(d))
                && StatesOf(units) == Shifted(old(StatesOf(units)), Moved(units, b, []), d)
                && (playerState <==> old(playerState) || WinsOn(win, "NoneType"))
      ensures old(Exist(StatesOf(units), b.loc, d)).Some? && !old(IsCollide(StatesOf(units), b.loc, d)) ==>
                && IsLine(old(StatesOf(units)), old(b.loc), d, at)
                && pushed == CanPush(cfg, old(StatesOf(units)), at)
                && b.State() == (if pushed then old(b.State()).(loc := old(b.loc).Plus(d)) else old(b.State()))
                && StatesOf(units) == (if pushed then Shifted(old(StatesOf(units)), Moved(units, b, at), d) else old(StatesOf(units)))
                && playerState == old(playerState)
    {
      at, pushed := [], false;
      var board := StatesOf(units);
      var nextBlock := Exist(board, b.loc, d);
      if nextBlock.None? || board[nextBlock.value].passable {
        Step(b, d);
        CheckWin(TypeName(board, nextBlock));
      } else {
        if !IsCollide(board, b.loc, d) {
          at, pushed := Push(b, d);
        }
      }
    }

    /** `b` alone moves one step along `d`. */
    method Step(b: Block, d: Vec)
      modifies b
      ensures b.State() == old(b.State()).(loc := old(b.loc).Plus(d))
      ensures StatesOf(units) == Shifted(old(StatesOf(units)), Moved(units, b, []), d)
    {
      b.loc := b.loc.Plus(d);
    }

    /**
     * The win check of `_move`: the player wins when some True key of
     * the win stream, with "Noun" removed, is `nextName`.
     */
    method CheckWin(nextName: string)
      requires win.Wf()
      modifies this`playerState
      ensures playerState <==> old(playerState) || WinsOn(win, nextName)
    {
      var keys := win.keys;
      for i := 0 to |keys|
        invariant playerState <==> old(playerState) || WinsOn(Stream(keys[..i], win.flags), nextName)
      {
        assert keys[..i + 1][..i] == keys[..i];
        var targetBlockName := StripNoun(keys[i]);
        if win.flags[keys[i]] {
          if nextName == targetBlockName {
            playerState := true;
          }
        }
      }
      assert keys[..|keys|] == keys;
    }

    // -------------------------------------------------------------------
    // Rule derivation
    // -------------------------------------------------------------------

    /**
     * The first loop of `_update_state` and of `is_directly_win`: the
     * (subject, predicate) pairs for every block of `isBlocks` and every
     * filled pair of its `_is_grammar_valid` slots.
     */
    static method CollectSentences(cfg: Config, board: seq<BlockState>, isBlocks: seq<BlockState>) returns (all: seq<Sentence>)
      ensures all == Sentences(cfg, board, isBlocks)
    {
      all := [];
      for n := 0 to |isBlocks|
        invariant all == Sentences(cfg, board, isBlocks[..n])
      {
        var slots := GrammarValid(cfg, board, isBlocks[n].loc);
        SentencesStep(cfg, board, isBlocks, n);
        var found := PairsOf(slots);
        all := all + found;
      }
      assert isBlocks[..|isBlocks|] == isBlocks;
    }

    /**
     * The inner loop of `_update_state` and `is_directly_win` over one
     * grammar result: a sentence for each pair of slots whose first slot
     * is filled, in slot order.
     */
    static method PairsOf(slots: seq<Option<BlockState>>) returns (found: seq<Sentence>)
      requires |slots| == 4
      requires slots[0].Some? <==> slots[1].Some?
      requires slots[2].Some? <==> slots[3].Some?
      ensures found == SlotSentences(slots, 4)
    {
      found := [];
      var i := 0;
      while i < |slots|
        invariant i == 0 || i == 2 || i == 4
        invariant found == SlotSentences(slots, i)
      {
        if slots[i].Some? {
          found := found + [Sentence(slots[i].value, slots[i + 1].value)];
        }
        i := i + 2;
      }
    }

    /**
     * `_update_state` on one stream: the stream keeps its keys and gains
     * every subject type name seen, in order; afterwards every key is
     * False except the subject of the first sentence whose predicate word
     * is `targetWord`.
     */
    static method UpdateState(cfg: Config, board: seq<BlockState>, stream: Stream, isBlocks: seq<BlockState>, targetWord: string)
      returns (r: Stream)
      requires stream.Wf()
      ensures r == Rebuilt(stream, Sentences(cfg, board, isBlocks), targetWord)
      ensures r.Wf()
      ensures forall k :: k in r.flags <==> k in stream.flags || k in Subjects(Sentences(cfg, board, isBlocks))
      ensures forall k :: k in r.flags && k !in Subjects(Sentences(cfg, board, isBlocks)) ==> !r.flags[k]
      ensures forall k1, k2 :: k1 in r.flags && k2 in r.flags && r.flags[k1] && r.flags[k2] ==> k1 == k2
    {
      var all := CollectSentences(cfg, board, isBlocks);
      r := Rebuild(stream, all, targetWord);
      RebuiltFacts(stream, all, targetWord);
    }

    /** The three loops of `_update_state` that follow the collection of the sentences `all`. */
    static method Rebuild(stream: Stream, all: seq<Sentence>, targetWord: string) returns (r: Stream)
      requires stream.Wf()
      ensures r == Rebuilt(stream, all, targetWord)
    {
      var names := Subjects(all);
      r := InitialiseNames(stream, names);
      r := MarkFirstMatch(r, all, targetWord);
      r := ResetAbsentKeys(r, names);
      RebuiltSteps(stream, all, targetWord);
    }

    /** The first loop of `_update_state`: every subject name is set to False. */
    static method InitialiseNames(stream: Stream, names: seq<string>) returns (r: Stream)
      requires stream.Wf()
      ensures r == Initialised(stream, names)
    {
      r := stream;
      for i := 0 to |names|
        invariant r == Initialised(stream, names[..i])
      {
        assert names[..i + 1][..i] == names[..i];
        r := r.Put(names[i], false);
      }
      assert names[..|names|] == names;
    }

    /** The second loop of `_update_state`: the first sentence naming `targetWord` sets its subject True, then stops. */
    static method MarkFirstMatch(stream: Stream, all: seq<Sentence>, targetWord: string) returns (r: Stream)
      requires stream.Wf()
      ensures r == MarkFirst(stream, all, targetWord)
    {
      r := stream;
      var i := 0;
      while i < |all|
        invariant 0 <= i <= |all|
        invariant forall j :: 0 <= j < i ==> all[j].complement.word != targetWord
      {
        if all[i].complement.word == targetWord {
          FirstMatchAt(all, targetWord, i);
          r := r.Put(all[i].subject.kind, true);
          return;
        }
        i := i + 1;
      }
    }

    /** The third loop of `_update_state`: keys that are no subject name are set to False. */
    static method ResetAbsentKeys(stream: Stream, names: seq<string>) returns (r: Stream)
      requires stream.Wf()
      ensures r == ResetAbsent(stream, names)
    {
      r := stream;
      var keys := stream.keys;
      for m := 0 to |keys|
        invariant r.Wf() && r.keys == keys
        invariant forall k :: k in r.flags ==> r.flags[k] == (if k in keys[..m] && k !in names then false else stream.flags[k])
      {
        if keys[m] !in names {
          r := r.Put(keys[m], false);
        }
      }
      assert keys[..|keys|] == keys;
      SameFlags(r.flags, ResetAbsent(stream, names).flags, keys);
    }

    /**
     * `is_directly_win`: `_compareList` collects the subjects of the
     * "win" and "you" sentences around the blocks of `isBlocks`; the
     * player wins when there are exactly two and their words agree.
     */
    method IsDirectlyWin(isBlocks: seq<Block>) returns (r: bool)
      ensures r == Board.IsDirectlyWin(cfg, StatesOf(units), StatesOf(isBlocks))
      ensures r <==> TwoWinYouSameWord(Sentences(cfg, StatesOf(units), StatesOf(isBlocks)))
    {
      var compareList := CollectWinYou(cfg, StatesOf(units), StatesOf(isBlocks));
      if |compareList| == 2 {
        r := compareList[0].word == compareList[1].word;
      } else {
        r := false;
      }
      assert r == DirectWin(Sentences(cfg, StatesOf(units), StatesOf(isBlocks)));
    }

    /** The loop of `is_directly_win` that fills `_compareList`. */
    static method CollectWinYou(cfg: Config, board: seq<BlockState>, isBlocks: seq<BlockState>) returns (compareList: seq<BlockState>)
      ensures compareList == WinYouSubjects(Sentences(cfg, board, isBlocks))
    {
      compareList := [];
      for n := 0 to |isBlocks|
        invariant compareList == WinYouSubjects(Sentences(cfg, board, isBlocks[..n]))
      {
        var slots := GrammarValid(cfg, board, isBlocks[n].loc);
        SentencesStep(cfg, board, isBlocks, n);
        compareList := CompareSubjects(slots, Sentences(cfg, board, isBlocks[..n]), compareList);
      }
      assert isBlocks[..|isBlocks|] == isBlocks;
    }

    /**
     * The inner loop of `is_directly_win` over one grammar result: the
     * subject of each filled pair whose predicate word is "win" or "you"
     * is appended.
     */
    static method CompareSubjects(slots: seq<Option<BlockState>>, ghost before: seq<Sentence>, compareList: seq<BlockState>)
      returns (found: seq<BlockState>)
      requires |slots| == 4
      requires slots[0].Some? <==> slots[1].Some?
      requires slots[2].Some? <==> slots[3].Some?
      requires compareList == WinYouSubjects(before)
      ensures found == WinYouSubjects(before + SlotSentences(slots, 4))
    {
      found := compareList;
      var i := 0;
      assert before + SlotSentences(slots, 0) == before;
      while i < |slots|
        invariant i == 0 || i == 2 || i == 4
        invariant found == WinYouSubjects(before + SlotSentences(slots, i))
      {
        WinYouSubjectsStep(before, slots, i);
        if slots[i].Some? {
          if slots[i + 1].value.word == "win" || slots[i + 1].value.word == "you" {
            found := found + [slots[i].value];
          }
        }
        i := i + 2;
      }
    }

    /**
     * `endow`: the four streams are rebuilt from the same sentences, then
     * every block gets, key by key in stream order, the flags of the key
     * whose stripped name is its kind (see `Rules.EndowKey`).
     */
    method Endow(isBlocks: seq<Block>)
      requires Valid()
      modifies this`stop, this`push, this`you, this`win, units
      ensures Valid()
      ensures stop == Rebuilt(old(stop), Sentences(cfg, old(StatesOf(units)), old(StatesOf(isBlocks))), "stop")
      ensures push == Rebuilt(old(push), Sentences(cfg, old(StatesOf(units)), old(StatesOf(isBlocks))), "push")
      ensures you == Rebuilt(old(you), Sentences(cfg, old(StatesOf(units)), old(StatesOf(isBlocks))), "you")
      ensures win == Rebuilt(old(win), Sentences(cfg, old(StatesOf(units)), old(StatesOf(isBlocks))), "win")
      ensures HasKeys(stop.keys, stop.flags, push.flags, you.flags)
      ensures forall k :: 0 <= k < |units| ==>
                units[k].State() == Endowed(old(units[k].State()), stop.keys, stop.flags, push.flags, you.flags)
    {
      var board := StatesOf(units);
      var isStates := StatesOf(isBlocks);
      UpdateStreams(board, isStates);
      EndowUnits(stop.keys, stop.flags, push.flags, you.flags);
    }

    /** The four `_update_state` calls of `endow`. */
    method UpdateStreams(board: seq<BlockState>, isStates: seq<BlockState>)
      requires Valid()
      modifies this`stop, this`push, this`you, this`win
      ensures Valid()
      ensures stop == Rebuilt(old(stop), Sentences(cfg, board, isStates), "stop")
      ensures push == Rebuilt(old(push), Sentences(cfg, board, isStates), "push")
      ensures you == Rebuilt(old(you), Sentences(cfg, board, isStates), "you")
      ensures win == Rebuilt(old(win), Sentences(cfg, board, isStates), "win")
      ensures HasKeys(stop.keys, stop.flags, push.flags, you.flags)
    {
      stop := UpdateState(cfg, board, stop, isStates, "stop");
      push := UpdateState(cfg, board, push, isStates, "push");
      you := UpdateState(cfg, board, you, isStates, "you");
      win := UpdateState(cfg, board, win, isStates, "win");
    }

    /** The loop of `endow` over the keys of the stop stream, in order. */
    method EndowUnits(keys: seq<string>, stopFlags: map<string, bool>, pushFlags: map<string, bool>, youFlags: map<string, bool>)
      requires Distinct(units)
      requires HasKeys(keys, stopFlags, pushFlags, youFlags)
      modifies units
      ensures forall k :: 0 <= k < |units| ==>
                units[k].State() == Endowed(old(units[k].State()), keys, stopFlags, pushFlags, youFlags)
    {
      for i := 0 to |keys|
        invariant forall k :: 0 <= k < |units| ==>
                    units[k].State() == Endowed(old(units[k].State()), keys[..i], stopFlags, pushFlags, youFlags)
      {
        assert keys[..i + 1][..i] == keys[..i];
        var blockNounName := keys[i];
        EndowOneKey(StripNoun(blockNounName), youFlags[blockNounName], stopFlags[blockNounName], pushFlags[blockNounName]);
      }
      assert keys[..|keys|] == keys;
    }

    /** The body of the loop of `endow` for one key whose stripped name is `target`. */
    method EndowOneKey(target: string, isYou: bool, isStop: bool, isPush: bool)
      requires Distinct(units)
      modifies units
      ensures forall k :: 0 <= k < |units| ==> units[k].State() == EndowKey(old(units[k].State()), target, isYou, isStop, isPush)
    {
      ControlKind(target, isYou);
      if !isStop && !isPush {
        SetUncontrolled(target, true, false);
      } else if isStop && !isPush {
        SetUncontrolled(target, false, false);
      } else if !isStop && isPush {
        SetUncontrolled(target, false, true);
      } else {
        SetUncontrolled(target, false, false);
      }
    }

    /** The you-branch of `endow` for one key: blocks of kind `target` gain or lose control. */
    method ControlKind(target: string, isYou: bool)
      requires Distinct(units)
      modifies units
      ensures forall k :: 0 <= k < |units| ==> units[k].State() == ControlStep(old(units[k].State()), target, isYou)
    {
      for j := 0 to |units|
        invariant forall k :: 0 <= k < j ==> units[k].State() == ControlStep(old(units[k].State()), target, isYou)
        invariant forall k :: j <= k < |units| ==> units[k].State() == old(units[k].State())
      {
        if units[j].kind == target {
          if isYou {
            units[j].controllable := true;
            units[j].moveable := true;
          } else {
            units[j].controllable := false;
          }
        }
      }
    }

    /** One stop/push loop of `endow`: uncontrolled blocks of kind `target` get the two flags. */
    method SetUncontrolled(target: string, passable: bool, moveable: bool)
      requires Distinct(units)
      modifies units
      ensures forall k :: 0 <= k < |units| ==> units[k].State() == TableStep(old(units[k].State()), target, passable, moveable)
    {
      for j := 0 to |units|
        invariant forall k :: 0 <= k < j ==> units[k].State() == TableStep(old(units[k].State()), target, passable, moveable)
        invariant forall k :: j <= k < |units| ==> units[k].State() == old(units[k].State())
      {
        if units[j].kind == target && !units[j].controllable {
          units[j].passable := passable;
          units[j].moveable := moveable;
        }
      }
    }

    // -------------------------------------------------------------------
    // transform
    // -------------------------------------------------------------------

    /**
     * `transform`: the NOUN-IS-YOU / NOUN-IS-NOUN pairs around `b`, found
     * once at the start, are applied to the board in slot order (see
     * `Rules.ApplySentence`).
     */
    method Transform(b: Block)
      requires Distinct(units)
      modifies units
      ensures StatesOf(units) == Transformed(old(StatesOf(units)), SlotSentences(PredicateAnalyze(cfg, old(StatesOf(units)), old(b.loc)), 4))
    {
      var board := StatesOf(units);
      var blockAround := PredicateAnalyze(cfg, board, b.loc);
      var i := 0;
      while i < |blockAround|
        invariant i == 0 || i == 2 || i == 4
        invariant StatesOf(units) == Transformed(board, SlotSentences(blockAround, i))
      {
        if blockAround[i].Some? {
          var s := Sentence(blockAround[i].value, blockAround[i + 1].value);
          ghost var done := SlotSentences(blockAround, i);
          assert (done + [s])[..|done|] == done;
          if blockAround[i + 1].value.word == "you" {
            TransformYou(StripNoun(blockAround[i].value.kind));
          } else {
            TransformNoun(StripNoun(blockAround[i].value.kind));
          }
        }
        i := i + 2;
      }
    }

    /** The "you" branch of `transform`: control is taken from every block, then given to those of kind `target`. */
    method TransformYou(target: string)
      requires Distinct(units)
      modifies units
      ensures StatesOf(units) == GiveControl(old(StatesOf(units)), target)
    {
      ghost var before := StatesOf(units);
      RevokeControl();
      GrantControl(target);
      assert forall k :: 0 <= k < |units| ==> units[k].State() == before[k].(controllable := before[k].kind == target);
    }

    /** The first loop of the "you" branch of `transform`: no block is controllable. */
    method RevokeControl()
      requires Distinct(units)
      modifies units
      ensures forall k :: 0 <= k < |units| ==> units[k].State() == old(units[k].State()).(controllable := false)
    {
      for j := 0 to |units|
        invariant forall k :: 0 <= k < j ==> units[k].State() == old(units[k].State()).(controllable := false)
        invariant forall k :: j <= k < |units| ==> units[k].State() == old(units[k].State())
      {
        units[j].controllable := false;
      }
    }

    /** The second loop of the "you" branch of `transform`: blocks of kind `target` become controllable. */
    method GrantControl(target: string)
      requires Distinct(units)
      modifies units
      ensures forall k :: 0 <= k < |units| ==>
                units[k].State() == if units[k].kind == target then old(units[k].State()).(controllable := true) else old(units[k].State())
    {
      for j := 0 to |units|
        invariant forall k :: 0 <= k < j ==>
                    units[k].State() == if units[k].kind == target then old(units[k].State()).(controllable := true) else old(units[k].State())
        invariant forall k :: j <= k < |units| ==> units[k].State() == old(units[k].State())
      {
        if units[j].kind == target {
          units[j].controllable := true;
        }
      }
    }

    /**
     * The noun branch of `transform`: every block of kind `target` takes
     * the attributes of the loop variable `j` left over from the search
     * for the complement's kind, which is always the last unit.
     */
    method TransformNoun(target: string)
      requires Distinct(units)
      modifies units
      ensures StatesOf(units) == CopyOnto(old(StatesOf(units)), target)
    {
      ghost var before := StatesOf(units);
      if |units| > 0 {
        var j := units[|units| - 1];
        ghost var last := before[|units| - 1];
        for x := 0 to |units|
          invariant forall k :: 0 <= k < x ==>
                      units[k].State() == if before[k].kind == target then CopyFrom(before[k], last) else before[k]
          invariant forall k :: x <= k < |units| ==> units[k].State() == before[k]
        {
          if units[x].kind == target {
            units[x].CopyAttributes(j);
          }
        }
      }
    }
  }
}
