# GameRule: the rule engine of a "rules are objects" grid puzzle

`GameRule.py` holds `GameRuleObserver`, the rule engine of a pygame puzzle in which
the rules are blocks on the board. Word blocks read as sentences across an "is"
block: NOUN-IS-VERB (`rock is push`) grants a property to every block of that
noun's kind, and NOUN-IS-NOUN / NOUN-IS-YOU (`rock is flag`, `rock is you`)
transforms blocks or hands over control. The engine has four parts, and this
project models all of them:

- **Adjacency queries** (`_is_inside_map`, `_is_exist`, `_is_exist_line`, `_observe`,
  `_is_collide`): the first solid (non-passable) unit at a cell, the contiguous
  solid line along a direction, and the four neighbours in `DIRECTION` order
  (up, down, left, right).
- **Grammar recognition** (`_is_grammar_valid`, `_predicate_analyze`,
  `is_directly_win`): the vertical pair (slots 0, 1) and horizontal pair (slots 2, 3)
  around a block, each filled only when it forms a valid sentence.
- **Rule derivation** (`_update_state`, `endow`): the four module-level dicts
  `stopStateStream`, `pushStateStream`, `youStateStream`, `winStateStream` are
  rebuilt from the sentences found, then turned into each block's `passable`,
  `moveable` and `controllable` flags.
- **Mechanics** (`_move`, `_push`, `transform`): a bounds-checked move with
  contact win, an all-or-nothing push of a solid line, and control hand-over or
  attribute copying between block kinds.

## Layout

- `wrappers.dfy` (`Wrappers`): `Option`, standing for "a block or Python's `None`".
- `geometry.dfy` (`Geometry`): integer locations `Vec`, `Plus`, and `Scale` for walking a direction.
- `blocks.dfy` (`Blocks`): the `Block` class and its value snapshot `BlockState`.
  - The Python class name is the `const` field `kind`, since the engine never changes a block's class.
  - `StatesOf` reads the board as a list of snapshots.
- `words.dfy` (`Words`): `StripNoun`, the `"".join(name.split('Noun'))` that maps a word kind to its object kind.
- `streams.dfy` (`Streams`): a state stream as a Python dict with insertion order (`keys`) and values (`flags`).
- `rules.dfy` (`Rules`): value-level definitions the class is proved against:
  - sentences, the rebuilt stream and the flags `endow` gives one block;
  - the board after `transform`;
  - the direct-win test.
- `board.dfy` (`Board`): the read-only queries, stated on a snapshot of `gameState.units`.
  - `Exist`, `FirstSolid` and `Observe` report a found block by its position in the board list.
  - `GrammarValid`, `PredicateAnalyze` and `Sentences` return snapshots of the blocks they find. Later code reads only the `kind` and `word` of those snapshots, and the engine never writes either field.
  - The constants `DIRECTION`, `NOUN_WORD_BANK`, `VERB_WORD_BANK`, `WORLD_MAX_X/Y` and `CELL_SIZE_X/Y` come from other modules and are a `Config` parameter.
- `game_rule.dfy` (`GameRule`): the class `Observer`, which holds:
  - the board `units`;
  - `playerState`;
  - the four streams.

  Its methods move, push, rebuild, endow and transform in place. Each is proved against the functions of `Rules` and `Board`.

## Model

| member | source | states |
|---|---|---|
| Board.IsInsideMap | GameRule.py:20-29 | on the map exactly when 0 <= x < WORLD_MAX_X*CELL_SIZE_X and 0 <= y < WORLD_MAX_Y*CELL_SIZE_Y |
| Board.FirstSolidFrom | GameRule.py:39-45 | the result is the first index from i whose unit stands at the cell and is not passable; nothing means no unit from i on is |
| Board.Exist | GameRule.py:31-45 | nothing for the zero direction; otherwise the first unit in board order at location + direction that is not passable, or nothing when no unit is |
| Board.WalkFacts | GameRule.py:47-60 | units met at location + (k+1)*direction along a non-zero direction are pairwise different, none is at the start, so there are at most as many as units (the walk terminates) |
| Board.Observe | GameRule.py:62-72 | four slots, slot i holding what `_is_exist` finds in DIRECTION[i] |
| Board.IsCollide | GameRule.py:74-85 | a collision happens exactly when, in a non-zero direction, the first solid unit at the target cell exists and is not moveable |
| Board.GrammarValid | GameRule.py:129-146 | four slots, filled in pairs (0,1), (2,3); a filled pair is two solid word units around `here`, a noun word then a verb word; a pair is empty exactly when a neighbour is missing or the pair is not NOUN-IS-VERB; filled slots are what `_observe` found |
| Board.PredicateAnalyze | GameRule.py:148-168 | as for GrammarValid, with the second word "you" or a noun word |
| Board.Sentences | GameRule.py:205-214 | every collected sentence is a pair of board units, a noun word then a verb word |
| Board.SentencesComplete | GameRule.py:207-214 | every filled pair of the grammar slots around any of the blocks is among the collected sentences |
| Board.SentencesStep | GameRule.py:207-214 | the sentences of one more block extend the earlier ones by that block's filled pairs, in slot order |
| Board.IsDirectlyWin | GameRule.py:170-194 | true exactly when exactly two sentences have predicate "win" or "you" and their subjects carry the same word |
| Board.TypeName | GameRule.py:123 | `type(nextBlock).__name__`: the class name of the found unit, or "NoneType" when there is none (no contract; `Observer.CheckWin` states its use) |
| Board.Shifted | GameRule.py:102-105 | only locations change; the units at the chosen positions are one step further along the direction, all others are unchanged |
| Words.StripNoun | GameRule.py:240 | removing "Noun" never lengthens a name, leaves a name without "Noun" as it is and shortens one with it |
| Words.StripNounOfNounKind | GameRule.py:283 | the word kind `kind + "Noun"` strips back to `kind` for every kind without "Noun" |
| Streams.Stream.Put | GameRule.py:217 | `stream[k] = v`: the value is set, an existing key keeps its place, a new one goes last, well-formedness is kept |
| Streams.AddKeys | GameRule.py:216-217 | the keys after assigning names are the old keys followed by the new names, without repetition |
| Streams.AddKeysPresent | GameRule.py:216-217 | names that are all keys already leave the key order unchanged |
| Streams.AddKeysIdempotent | GameRule.py:216-217 | assigning the same names twice gives the same key order as once |
| Rules.SlotSentences | GameRule.py:209-214 | the sentences of the filled slot pairs, in slot order (no contract; SlotSentencesSound, SlotSentencesComplete and SlotSentencesOrder state its properties) |
| Rules.SlotSentencesSound | GameRule.py:209-214 | each sentence taken from grammar slots is a filled pair (i, i+1) with i even |
| Rules.SlotSentencesComplete | GameRule.py:209-214 | every filled pair (i, i+1) with i even yields its sentence |
| Rules.SlotSentencesOrder | GameRule.py:209-214 | the sentence of a filled pair comes right after the sentences of the pairs before it, so sentences follow slot order |
| Rules.SlotSentencesPrefix | GameRule.py:209-214 | the sentences of the first i slots begin the sentences of the first n slots, for i <= n |
| Rules.Rebuilt | GameRule.py:205-225 | the stream `_update_state` leaves: old keys plus every subject, True only for the first match (no contract; its properties are RebuiltFacts and RebuildIdempotent) |
| Rules.FirstMatch | GameRule.py:219-222 | nothing exactly when no sentence has the target predicate; otherwise the subject kind of the first sentence that has it |
| Rules.RebuiltFacts | GameRule.py:205-225 | the rebuilt stream is well formed, its keys are the old keys plus every subject, keys that are not subjects are False, at most one key is True and a key is True exactly when it is the first match |
| Rules.Initialised | GameRule.py:216-217 | the first loop adds the subject names to the key order and sets exactly them to False |
| Rules.MarkFirst | GameRule.py:219-222 | the second loop sets the first match True; its key keeps its place or, if new, goes last; no other key is added and no other value changes; without a match the stream is unchanged |
| Rules.ResetAbsent | GameRule.py:223-225 | the third loop keeps the keys and sets every key that is not a subject name to False |
| Rules.RebuiltStepsAt | GameRule.py:216-225 | after the three loops a key is True exactly when it is the first match |
| Rules.RebuiltSteps | GameRule.py:216-225 | the three loops of `_update_state` together build the rebuilt stream |
| Rules.RebuildIdempotent | GameRule.py:205-225 | rebuilding twice from the same sentences gives the same stream as once |
| Rules.ControlStep | GameRule.py:241-249 | the you-branch for one block: another kind is unchanged; the kind becomes controllable and moveable when "you", uncontrollable otherwise, and nothing else changes |
| Rules.TableStep | GameRule.py:251-270 | one stop/push loop for one block: controllability never changes; an uncontrolled block of the kind gets the given passable and moveable, every other block is unchanged |
| Rules.StopPushFlags | GameRule.py:251-270 | the four stop/push branches give passable exactly for neither stop nor push, and moveable exactly for push without stop |
| Rules.EndowKey | GameRule.py:240-270 | for one key: other kinds untouched; controllable exactly when "you"; "you" makes moveable and keeps passable; otherwise passable only for neither stop nor push and moveable only for push without stop; only the three flags change |
| Rules.Endowed | GameRule.py:239-270 | one block after `endow` visits every key in stream order (no contract; its properties are EndowedOnlyFlags, EndowedUnmatched and EndowedSingle) |
| Rules.EndowedOnlyFlags | GameRule.py:239-270 | `endow` changes only passable, moveable and controllable |
| Rules.EndowedUnmatched | GameRule.py:239-243 | a block whose kind no key strips to is left as it was |
| Rules.EndowedSingle | GameRule.py:239-270 | a block whose kind exactly one key strips to gets exactly that key's rule |
| Rules.GiveControl | GameRule.py:278-286 | controllable exactly for the blocks of the subject kind, nothing else changes |
| Rules.CopyOnto | GameRule.py:295-309 | blocks of the subject kind take id, text flag, the three flags, location and a texture from the last unit, keeping kind, word and asset; other blocks unchanged |
| Rules.ApplySentence | GameRule.py:276-309 | handling one sentence keeps the board's length and every block's kind, word and asset |
| Rules.Transformed | GameRule.py:272-310 | the board after `transform` handles each NOUN-IS-YOU / NOUN-IS-NOUN sentence in order (no contract; its property is TransformedKeepsKinds) |
| Rules.TransformedKeepsKinds | GameRule.py:272-310 | `transform` never changes the board's length nor any block's kind or word |
| Rules.WinYouSubjects | GameRule.py:183-191 | at most one subject per sentence is collected, and a block is collected exactly when it is the subject of a sentence with predicate "win" or "you" |
| Rules.WinYouSubjectsOrder | GameRule.py:183-191 | subjects are collected in sentence order: the subject of each "win"/"you" sentence comes right after those of the sentences before it |
| Rules.WinYouSubjectsStep | GameRule.py:186-191 | one filled pair with predicate "win" or "you" appends its subject to the collected subjects |
| Rules.WinYouSubjectsSnoc | GameRule.py:189-191 | a sentence appended last adds its subject exactly when its predicate is "win" or "you" |
| Rules.DirectWin | GameRule.py:192-194 | true exactly when exactly two sentences have predicate "win" or "you" and their subjects carry the same word |
| GameRule.Observer.constructor | GameRule.py:11-18 | the observer keeps the game state and sees the four shared module-level streams as they currently are |
| GameRule.Observer.ExistLine | GameRule.py:47-60 | the line is the walk `IsLine` describes: the k-th unit is the first solid one at location + (k+1)*direction, none past its end; never the mover, no repeats, at most as many as units |
| GameRule.Observer.Push | GameRule.py:87-105 | pushes exactly when every line unit is inside the map at its current location and moveable; then the mover and every line unit move one step, otherwise nothing changes |
| GameRule.Observer.Pushable | GameRule.py:94-100 | true exactly when every unit of the line is inside the map and moveable |
| GameRule.Observer.ShiftLine | GameRule.py:102-105 | the mover and exactly the line units move one step along the direction, nothing else changes |
| GameRule.Observer.CanMove | GameRule.py:113-116 | the guard of `_move`: moveable, controllable and the target cell on the map (no contract; `Observer.Move` states its use) |
| GameRule.Observer.Move | GameRule.py:107-127 | no move unless moveable, controllable and the target is on the map, or on a collision; into an empty cell the mover alone steps and the win flag latches when a True win key strips to "NoneType"; against a moveable unit it behaves as Push |
| GameRule.Observer.MoveInside | GameRule.py:115-127 | the three outcomes of `_move` once its guard holds: blocked, free step with win check, push |
| GameRule.Observer.Step | GameRule.py:119 | only the mover's location changes, by one step |
| GameRule.Observer.CheckWin | GameRule.py:120-124 | the player has won afterwards exactly when they had before or some True key of the win stream strips to the given name |
| GameRule.Observer.CollectSentences | GameRule.py:205-214 | collects exactly the sentences of the blocks in order |
| GameRule.Observer.PairsOf | GameRule.py:209-214 | collects exactly the sentences of the filled pairs of one grammar result |
| GameRule.Observer.UpdateState | GameRule.py:196-225 | the stream becomes the rebuilt stream: old keys plus all subjects, only the first match True |
| GameRule.Observer.Rebuild | GameRule.py:216-225 | the three loops produce the rebuilt stream |
| GameRule.Observer.InitialiseNames | GameRule.py:216-217 | the first loop computes Initialised |
| GameRule.Observer.MarkFirstMatch | GameRule.py:219-222 | the second loop, with its `break`, computes MarkFirst |
| GameRule.Observer.ResetAbsentKeys | GameRule.py:223-225 | the third loop computes ResetAbsent |
| GameRule.Observer.IsDirectlyWin | GameRule.py:170-194 | equals `Board.IsDirectlyWin` on the current board; true exactly when exactly two sentences have predicate "win" or "you" and their subjects carry the same word |
| GameRule.Observer.CollectWinYou | GameRule.py:183-191 | `_compareList` is the subjects of the "win"/"you" sentences in order |
| GameRule.Observer.CompareSubjects | GameRule.py:186-191 | one grammar result appends exactly the subjects of its "win"/"you" pairs |
| GameRule.Observer.Endow | GameRule.py:227-270 | all four streams are rebuilt from the same sentences and keep one key order; every unit ends with the flags its kind's keys give, in stream order |
| GameRule.Observer.UpdateStreams | GameRule.py:234-237 | the four streams are rebuilt with targets stop, push, you and win, and every stop key is a key of the other streams |
| GameRule.Observer.EndowUnits | GameRule.py:239-270 | every unit's state is the result of visiting all keys in order |
| GameRule.Observer.EndowOneKey | GameRule.py:240-270 | one key's you-branch and stop/push table applied to every unit |
| GameRule.Observer.ControlKind | GameRule.py:241-249 | units of the kind become controllable and moveable (you) or uncontrollable (not you), others unchanged |
| GameRule.Observer.SetUncontrolled | GameRule.py:251-270 | uncontrolled units of the kind get the given passable and moveable flags, others unchanged |
| GameRule.Observer.Transform | GameRule.py:272-310 | the board becomes the result of handling the NOUN-IS-YOU / NOUN-IS-NOUN pairs around the block, in slot order |
| GameRule.Observer.TransformYou | GameRule.py:278-286 | controllable exactly for the blocks of the subject kind, nothing else changes |
| GameRule.Observer.RevokeControl | GameRule.py:279-280 | no block is controllable, nothing else changes |
| GameRule.Observer.GrantControl | GameRule.py:284-286 | blocks of the kind become controllable, nothing else changes |
| GameRule.Observer.TransformNoun | GameRule.py:295-309 | blocks of the subject kind take the attributes and location of the last unit, others unchanged |
| Blocks.Block.CopyAttributes | GameRule.py:303-309 | the block takes id, text flag, the three flags and location of `j`, and a texture loaded from `j`'s asset, also when `j` is the block itself |

## Where the code and its description differ

Each of these is modelled as the code behaves.

- **Push bounds.** `_push` tests each line unit's current location against the map (GameRule.py:98), not its location after the shift. The last unit of a line can therefore be pushed off the map.
- **Contact win.** On the free-move branch `nextBlock` is always `None`, because `_is_exist` never returns a passable unit. So the win check at GameRule.py:119-124 compares win keys against `"NoneType"`, never against the occupant's kind.
- **Direct win.** `is_directly_win` does not ask that one sentence be "win" and the other "you". Any two "win"/"you" sentences whose subjects have the same word win, for example two copies of "flag is win".
- **Transform representative.** The noun branch copies from `j`, the loop variable of the search at GameRule.py:295-297, which is always the last unit of the board. It is not the last unit of the predicate kind (`temp`). This also holds when no unit has the predicate kind.
- **First match only.** Because of the `break` at GameRule.py:222, only the first sentence on the whole board with the target predicate sets its subject True.
- **No "is" check.** None of the grammar functions checks that the centre block is an "is" block.

## Left out

- pygame `Vector2` floats: locations are integer pairs and equality is exact.
- `pygame.image.load(j.a)` (GameRule.py:309): the texture is modelled as the name of the asset it was loaded from.
- The `rect` copy (GameRule.py:310): rendering state only.
- The aliasing of one `Vector2` object by `location = j.location` (GameRule.py:308), and the in-place `+=` on it: locations are values, so a later push moves only the unit pushed.
- The search loop at GameRule.py:295-297 is not modelled as a loop. Its only lasting effect is that `j` names the last unit, and `Observer.TransformNoun` takes that unit directly. `temp` is never read.
- The `Map1` import, the `pygame` import and the commented-out debug lines (GameRule.py:3, 274, 299-301, 311-326): no behaviour.
- The contents of `DIRECTION`, the word banks and the map dimensions are defined elsewhere (the `Blocks` and `GameState` modules are not part of this model). They are the `Config` parameter, which requires four directions.
- The game loop that decides when `endow`, `transform`, `_move` and `is_directly_win` run is not part of this model.
- `GameRule.Observer.Valid` asks that no block occurs twice in `units`. It also asks that the four streams keep one key order. That holds from their empty start, because all four are always rebuilt together. Without it `endow` would raise `KeyError`.
- GameRule.Observer.constructor: the four streams are module globals shared by every observer, and `__init__` does not touch them. The model has no globals, so each observer holds the streams as fields and the constructor takes their current values. A rebuild by one observer is not seen by another observer.
- The query functions of `Board` take a snapshot of the board (`StatesOf(units)`) rather than the objects themselves. `Exist`, `FirstSolid` and `Observe` report a found block by its position in the list. `GrammarValid`, `PredicateAnalyze` and `Sentences` return snapshots, of which only the never-written `kind` and `word` are read later.
- `is_pass()`, `is_move()` and `is_control()` belong to the `Blocks` module. They are taken to return the `passable`, `moveable` and `controllable` fields, and the model reads those fields directly.
- `allGrammarBlocksList` is a Python list that alternates subject type names and block objects (GameRule.py:205-214). The third loop of `_update_state` tests each key with `not in` against that list (GameRule.py:224). The model keeps only the names (`Subjects`), since a name string never equals a block object.
