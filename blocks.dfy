/**
 * The blocks on the board. In the source a block is an instance of a
 * Python class (`Rock`, `RockNoun`, `IsWord`, ...) defined in the
 * `Blocks` module; the class name is recorded here as `kind`.
 */
module Blocks {
  import opened Geometry

  /** Every field of a block, as one value (used to say what changed). */
  datatype BlockState = BlockState(
    kind: string, word: string, asset: string,
    id: int, isText: bool, passable: bool, moveable: bool, controllable: bool,
    loc: Vec, texture: string)

  class Block {
    /** `type(block).__name__`: the rule engine never changes a block's class. */
    const kind: string
    /** The grammar token of a word block (`word`); never written by the rule engine. */
    const word: string
    /** The asset path `a` a texture is loaded from; never written by the rule engine. */
    const asset: string
    var id: int
    /** `_text`: the block is a word block. */
    var isText: bool
    var passable: bool
    var moveable: bool
    var controllable: bool
    var loc: Vec
    /** The asset the displayed texture was loaded from (pygame surfaces are not modelled). */
    var texture: string

    constructor (kind: string, word: string, asset: string, id: int, isText: bool, loc: Vec)
      ensures State() == BlockState(kind, word, asset, id, isText, false, false, false, loc, asset)
    {
      this.kind, this.word, this.asset := kind, word, asset;
      this.id, this.isText, this.loc, this.texture := id, isText, loc, asset;
      passable, moveable, controllable := false, false, false;
    }

    /**
     * The attribute copy of the noun branch of `transform`: id, text
     * flag, the three capability flags, the location, and a texture
     * loaded from `j`'s asset. Each field of `j` is read before it could
     * be overwritten, so `j` may be this block itself.
     */
    method CopyAttributes(j: Block)
      modifies this
      ensures State() == old(State()).(id := old(j.id), isText := old(j.isText), passable := old(j.passable),
                                       moveable := old(j.moveable), controllable := old(j.controllable),
                                       loc := old(j.loc), texture := j.asset)
    {
      id := j.id;
      isText := j.isText;
      passable := j.passable;
      moveable := j.moveable;
      controllable := j.controllable;
      loc := j.loc;
      texture := j.asset;
    }

    function State(): BlockState
      reads this
    {
      BlockState(kind, word, asset, id, isText, passable, moveable, controllable, loc, texture)
    }
  }

  /** No block occurs twice in the list. */
  ghost predicate Distinct(units: seq<Block>) {
    forall i, j :: 0 <= i < j < |units| ==> units[i] != units[j]
  }

  /** The state of every block of the board, in board order. */
  function StatesOf(units: seq<Block>): (r: seq<BlockState>)
    reads units
    ensures |r| == |units|
    ensures forall k :: 0 <= k < |units| ==> r[k] == units[k].State()
  {
    seq(|units|, k requires 0 <= k < |units| reads units => units[k].State())
  }
}
