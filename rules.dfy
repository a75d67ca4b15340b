/**
 * What the rule engine computes, stated on values: sentences, the
 * rebuilt state streams, the flags `endow` gives one block, the board
 * after `transform`, and the "xx is win" / "xx is you" direct win.
 * The Observer class in module GameRule is proved against these.
 */
module Rules {
  import opened Wrappers
  import opened Blocks
  import opened Words
  import opened Streams

  /** A recognised pair straddling a block: subject above/left, complement (the predicate word) below/right. */
  datatype Sentence = Sentence(subject: BlockState, complement: BlockState)

  /**
   * The sentences held by the first `n` slots of a 4-slot grammar result:
   * one per filled pair (0, 1), (2, 3), in that order.
   */
  function SlotSentences(slots: seq<Option<BlockState>>, n: int): seq<Sentence>
    requires 0 <= n <= |slots| && n % 2 == 0
    decreases n
  {
    if n == 0 then
      []
    else
      var i := n - 2;
      SlotSentences(slots, i)
      + (if slots[i].Some? && slots[i + 1].Some? then [Sentence(slots[i].value, slots[i + 1].value)] else [])
  }

  /** Nothing is invented: each sentence is a filled pair (i, i + 1) with i even. */
  lemma {:induction false} SlotSentencesSound(slots: seq<Option<BlockState>>, n: int)
    requires 0 <= n <= |slots| && n % 2 == 0
    ensures forall s :: s in SlotSentences(slots, n) ==>
              exists i :: 0 <= i < n && i % 2 == 0 && slots[i] == Some(s.subject) && slots[i + 1] == Some(s.complement)
    decreases n
  {
    if n > 0 {
      SlotSentencesSound(slots, n - 2);
      var prev := SlotSentences(slots, n - 2);
      var extra := if slots[n - 2].Some? && slots[n - 1].Some? then [Sentence(slots[n - 2].value, slots[n - 1].value)] else [];
      assert SlotSentences(slots, n) == prev + extra;
      forall s: Sentence | s in prev + extra
        ensures exists i :: 0 <= i < n && i % 2 == 0 && slots[i] == Some(s.subject) && slots[i + 1] == Some(s.complement)
      {
        if s !in prev {
          assert slots[n - 2] == Some(s.subject) && slots[n - 1] == Some(s.complement);
        }
      }
    }
  }

  /** Every filled pair (i, i + 1) among the first `n` slots yields its sentence. */
  lemma {:induction false} SlotSentencesComplete(slots: seq<Option<BlockState>>, i: int, n: int)
    requires 0 <= i < n <= |slots| && i % 2 == 0 && n % 2 == 0
    requires slots[i].Some? && slots[i + 1].Some?
    ensures Sentence(slots[i].value, slots[i + 1].value) in SlotSentences(slots, n)
  {
    SlotSentencesOrder(slots, i, n);
  }

  /**
   * Slot order: the sentence of a filled pair (i, i + 1) comes right
   * after the sentences of the pairs before it.
   */
  lemma {:induction false} SlotSentencesOrder(slots: seq<Option<BlockState>>, i: int, n: int)
    requires 0 <= i < n <= |slots| && i % 2 == 0 && n % 2 == 0
    requires slots[i].Some? && slots[i + 1].Some?
    ensures var p := |SlotSentences(slots, i)|;
      && p < |SlotSentences(slots, n)|
      && SlotSentences(slots, n)[..p] == SlotSentences(slots, i)
      && SlotSentences(slots, n)[p] == Sentence(slots[i].value, slots[i + 1].value)
  {
    var before := SlotSentences(slots, i);
    var upTo := SlotSentences(slots, i + 2);
    var r := SlotSentences(slots, n);
    assert upTo == before + [Sentence(slots[i].value, slots[i + 1].value)];
    SlotSentencesPrefix(slots, i + 2, n);
    PrefixOfAppend(upTo, r, |before|);
    assert r[|before|] == r[..|upTo|][|before|];
  }

  /** The sentences of the first `i` slots begin those of the first `n`. */
  lemma {:induction false} SlotSentencesPrefix(slots: seq<Option<BlockState>>, i: int, n: int)
    requires 0 <= i <= n <= |slots| && i % 2 == 0 && n % 2 == 0
    ensures |SlotSentences(slots, i)| <= |SlotSentences(slots, n)|
    ensures SlotSentences(slots, n)[..|SlotSentences(slots, i)|] == SlotSentences(slots, i)
    decreases n
  {
    if i < n {
      SlotSentencesPrefix(slots, i, n - 2);
      SlotSentencesGrow(slots, n);
      PrefixOfAppend(SlotSentences(slots, n - 2), SlotSentences(slots, n), |SlotSentences(slots, i)|);
    }
  }

  /** Two more slots only append to the sentences. */
  lemma SlotSentencesGrow(slots: seq<Option<BlockState>>, n: int)
    requires 2 <= n <= |slots| && n % 2 == 0
    ensures |SlotSentences(slots, n - 2)| <= |SlotSentences(slots, n)|
    ensures SlotSentences(slots, n)[..|SlotSentences(slots, n - 2)|] == SlotSentences(slots, n - 2)
  {
    var prev := SlotSentences(slots, n - 2);
    var extra := if slots[n - 2].Some? && slots[n - 1].Some? then [Sentence(slots[n - 2].value, slots[n - 1].value)] else [];
    assert SlotSentences(slots, n) == prev + extra;
    assert (prev + extra)[..|prev|] == prev;
  }

  /** A prefix of `a` stays a prefix once `a` is extended to `b`. */
  lemma PrefixOfAppend<T>(a: seq<T>, b: seq<T>, k: int)
    requires 0 <= k <= |a| <= |b| && b[..|a|] == a
    ensures b[..k] == a[..k]
  {
    assert forall j :: 0 <= j < k ==> b[j] == b[..|a|][j];
  }

  // ---------------------------------------------------------------------
  // _update_state
  // ---------------------------------------------------------------------

  /** The subject type names, in the order `_update_state` collects them. */
  function Subjects(ss: seq<Sentence>): seq<string> {
    seq(|ss|, i requires 0 <= i < |ss| => ss[i].subject.kind)
  }

  /**
   * The subject type name of the first sentence whose predicate word is
   * `target`: the only key the `break` lets become True.
   */
  function FirstMatch(ss: seq<Sentence>, target: string): (r: Option<string>)
    ensures r.None? <==> forall i :: 0 <= i < |ss| ==> ss[i].complement.word != target
    ensures r.Some? ==> exists i :: 0 <= i < |ss| && ss[i].complement.word == target
                                 && r.value == ss[i].subject.kind
                                 && forall j :: 0 <= j < i ==> ss[j].complement.word != target
  {
    if ss == [] then
      None
    else if ss[0].complement.word == target then
      Some(ss[0].subject.kind)
    else
      var r := FirstMatch(ss[1..], target);
      assert forall i :: 1 <= i < |ss| ==> ss[1..][i - 1] == ss[i];
      if r.Some? then
        var i :| 0 <= i < |ss[1..]| && ss[1..][i].complement.word == target
                 && r.value == ss[1..][i].subject.kind
                 && forall j :: 0 <= j < i ==> ss[1..][j].complement.word != target;
        assert ss[i + 1].complement.word == target;
        r
      else
        r
  }

  /** If sentence `i` is a first match for `target`, it is THE first match. */
  lemma FirstMatchAt(ss: seq<Sentence>, target: string, i: int)
    requires 0 <= i < |ss| && ss[i].complement.word == target
    requires forall j :: 0 <= j < i ==> ss[j].complement.word != target
    ensures FirstMatch(ss, target) == Some(ss[i].subject.kind)
  {
  }

  /**
   * The stream `_update_state` leaves: the old keys followed by the new
   * subject names, every key False except the subject of the first
   * sentence whose predicate word is `target`.
   */
  function Rebuilt(s: Stream, ss: seq<Sentence>, target: string): Stream {
    var keys := AddKeys(s.keys, Subjects(ss));
    Stream(keys, map k | k in keys :: FirstMatch(ss, target) == Some(k))
  }

  /**
   * The rebuilt stream is well formed, keeps every old key, adds every
   * subject, resets every key that is not a subject of this call, and
   * has at most one True entry: the first sentence's subject.
   */
  lemma RebuiltFacts(s: Stream, ss: seq<Sentence>, target: string)
    requires s.Wf()
    ensures var r := Rebuilt(s, ss, target);
      && r.Wf()
      && (forall k :: k in r.flags <==> k in s.flags || k in Subjects(ss))
      && (forall k :: k in r.flags && k !in Subjects(ss) ==> !r.flags[k])
      && (forall k1, k2 :: k1 in r.flags && k2 in r.flags && r.flags[k1] && r.flags[k2] ==> k1 == k2)
      && (forall k :: k in r.flags ==> (r.flags[k] <==> FirstMatch(ss, target) == Some(k)))
  {
    var fm := FirstMatch(ss, target);
    if fm.Some? {
      var i :| 0 <= i < |ss| && ss[i].complement.word == target && fm.value == ss[i].subject.kind
               && forall j :: 0 <= j < i ==> ss[j].complement.word != target;
      assert Subjects(ss)[i] == fm.value;
    }
  }

  /** The first loop of `_update_state`: each name in turn is set to False, new names going last. */
  function Initialised(s: Stream, names: seq<string>): (r: Stream)
    requires s.Wf()
    ensures r.Wf()
    ensures r.keys == AddKeys(s.keys, names)
    ensures forall k :: k in r.flags ==> r.flags[k] == (k !in names && s.flags[k])
    decreases |names|
  {
    if names == [] then
      s
    else
      var prev := Initialised(s, names[..|names| - 1]);
      assert forall k :: k in names <==> k in names[..|names| - 1] || k == names[|names| - 1];
      prev.Put(names[|names| - 1], false)
  }

  /** The second loop of `_update_state`: the subject of the first match, if any, is set to True. */
  function MarkFirst(s: Stream, ss: seq<Sentence>, target: string): (r: Stream)
    requires s.Wf()
    ensures r.Wf()
    ensures FirstMatch(ss, target).None? ==> r == s
    ensures FirstMatch(ss, target).Some? ==> var k := FirstMatch(ss, target).value;
      && r.keys == (if k in s.keys then s.keys else s.keys + [k])
      && (forall k' :: k' in r.flags <==> k' in s.flags || k' == k)
      && r.flags[k]
      && (forall k' :: k' in s.flags && k' != k ==> r.flags[k'] == s.flags[k'])
  {
    match FirstMatch(ss, target)
    case None => s
    case Some(k) => s.Put(k, true)
  }

  /** The third loop of `_update_state`: every key that is not one of `names` is set to False. */
  function ResetAbsent(s: Stream, names: seq<string>): (r: Stream)
    requires s.Wf()
    ensures r.Wf() && r.keys == s.keys
    ensures forall k :: k in r.flags ==> r.flags[k] == (k in names && s.flags[k])
  {
    Stream(s.keys, map k | k in s.keys :: k in names && s.flags[k])
  }

  /** The subject of the first match is one of the subject names. */
  lemma FirstMatchIsSubject(ss: seq<Sentence>, target: string)
    ensures FirstMatch(ss, target).Some? ==> FirstMatch(ss, target).value in Subjects(ss)
  {
    var fm := FirstMatch(ss, target);
    if fm.Some? {
      var i :| 0 <= i < |ss| && ss[i].complement.word == target && fm.value == ss[i].subject.kind
               && forall j :: 0 <= j < i ==> ss[j].complement.word != target;
      assert Subjects(ss)[i] == fm.value;
    }
  }

  /** After the three loops of `_update_state`, key `k` is True exactly when it is the first match. */
  lemma RebuiltStepsAt(s: Stream, ss: seq<Sentence>, target: string, k: string)
    requires s.Wf()
    requires k in AddKeys(s.keys, Subjects(ss))
    ensures var r := ResetAbsent(MarkFirst(Initialised(s, Subjects(ss)), ss, target), Subjects(ss));
      k in r.flags && (r.flags[k] <==> FirstMatch(ss, target) == Some(k))
  {
    var names := Subjects(ss);
    var init := Initialised(s, names);
    var fm := FirstMatch(ss, target);
    FirstMatchIsSubject(ss, target);
    var marked := MarkFirst(init, ss, target);
    if fm == Some(k) {
      assert marked.flags[k];
    } else {
      assert k in marked.flags && marked.flags[k] == init.flags[k];
    }
  }

  /** The three loops of `_update_state` together build exactly `Rebuilt`. */
  lemma RebuiltSteps(s: Stream, ss: seq<Sentence>, target: string)
    requires s.Wf()
    ensures ResetAbsent(MarkFirst(Initialised(s, Subjects(ss)), ss, target), Subjects(ss)) == Rebuilt(s, ss, target)
  {
    var names := Subjects(ss);
    var init := Initialised(s, names);
    FirstMatchIsSubject(ss, target);
    var r := ResetAbsent(MarkFirst(init, ss, target), names);
    var expected := Rebuilt(s, ss, target);
    var keys := expected.keys;
    assert r.keys == keys;
    assert r.Wf() && expected.Wf();
    forall k | k in keys
      ensures r.flags[k] == expected.flags[k]
    {
      RebuiltStepsAt(s, ss, target, k);
    }
    SameFlags(r.flags, expected.flags, keys);
  }

  lemma SameFlags(m1: map<string, bool>, m2: map<string, bool>, keys: seq<string>)
    requires forall k :: k in m1 <==> k in keys
    requires forall k :: k in m2 <==> k in keys
    requires forall k :: k in keys ==> m1[k] == m2[k]
    ensures m1 == m2
  {
  }

  /** Rebuilding twice from the same sentences gives the same stream. */
  lemma RebuildIdempotent(s: Stream, ss: seq<Sentence>, target: string)
    ensures Rebuilt(Rebuilt(s, ss, target), ss, target) == Rebuilt(s, ss, target)
  {
    AddKeysIdempotent(s.keys, Subjects(ss));
  }

  // ---------------------------------------------------------------------
  // endow
  // ---------------------------------------------------------------------

  /** The you-branch of `endow` for one key, on one block. */
  function ControlStep(s: BlockState, target: string, isYou: bool): (r: BlockState)
    ensures s.kind != target ==> r == s
    ensures s.kind == target ==> r == s.(controllable := isYou, moveable := s.moveable || isYou)
  {
    if s.kind != target then s
    else if isYou then s.(controllable := true, moveable := true)
    else s.(controllable := false)
  }

  /** One of the four stop/push loops of `endow`, on one block. */
  function TableStep(s: BlockState, target: string, passable: bool, moveable: bool): (r: BlockState)
    ensures r.controllable == s.controllable
    ensures s.kind != target || s.controllable ==> r == s
    ensures s.kind == target && !s.controllable ==> r == s.(passable := passable, moveable := moveable)
  {
    if s.kind == target && !s.controllable then s.(passable := passable, moveable := moveable) else s
  }

  /** The (passable, moveable) pair the stop/push branches of `endow` assign. */
  function StopPushFlags(isStop: bool, isPush: bool): (r: (bool, bool))
    ensures r.0 <==> !isStop && !isPush
    ensures r.1 <==> !isStop && isPush
  {
    if !isStop && !isPush then (true, false)
    else if isStop && !isPush then (false, false)
    else if !isStop && isPush then (false, true)
    else (false, false)
  }

  /**
   * What `endow` does for one key to one block: a block of another kind
   * is untouched; one of the key's kind is controllable exactly when the
   * key is "you"; a "you" block becomes moveable and keeps `passable`;
   * any other follows the stop/push table, passable only when neither
   * stop nor push holds and moveable only for push without stop.
   */
  function EndowKey(s: BlockState, target: string, isYou: bool, isStop: bool, isPush: bool): (r: BlockState)
    ensures s.kind != target ==> r == s
    ensures s.kind == target ==> r.controllable == isYou
    ensures s.kind == target && isYou ==> r.moveable && r.passable == s.passable
    ensures s.kind == target && !isYou ==> (r.passable <==> !isStop && !isPush)
    ensures s.kind == target && !isYou ==> (r.moveable <==> !isStop && isPush)
    ensures r.(passable := s.passable, moveable := s.moveable, controllable := s.controllable) == s
  {
    var flags := StopPushFlags(isStop, isPush);
    TableStep(ControlStep(s, target, isYou), target, flags.0, flags.1)
  }

  ghost predicate HasKeys(keys: seq<string>, stop: map<string, bool>, push: map<string, bool>, you: map<string, bool>) {
    forall k :: k in keys ==> k in stop && k in push && k in you
  }

  /** A block after `endow` has visited `keys` in order. */
  function Endowed(s: BlockState, keys: seq<string>, stop: map<string, bool>, push: map<string, bool>, you: map<string, bool>): BlockState
    requires HasKeys(keys, stop, push, you)
    decreases |keys|
  {
    if keys == [] then
      s
    else
      var k := keys[|keys| - 1];
      EndowKey(Endowed(s, keys[..|keys| - 1], stop, push, you), StripNoun(k), you[k], stop[k], push[k])
  }

  /** `endow` changes only the three capability flags of a block. */
  lemma {:induction false} EndowedOnlyFlags(s: BlockState, keys: seq<string>, stop: map<string, bool>, push: map<string, bool>, you: map<string, bool>)
    requires HasKeys(keys, stop, push, you)
    ensures Endowed(s, keys, stop, push, you).(passable := s.passable, moveable := s.moveable, controllable := s.controllable) == s
    decreases |keys|
  {
    if keys != [] {
      EndowedOnlyFlags(s, keys[..|keys| - 1], stop, push, you);
    }
  }

  /** A block whose kind no key strips to is left as it was. */
  lemma {:induction false} EndowedUnmatched(s: BlockState, keys: seq<string>, stop: map<string, bool>, push: map<string, bool>, you: map<string, bool>)
    requires HasKeys(keys, stop, push, you)
    requires forall k :: k in keys ==> StripNoun(k) != s.kind
    ensures Endowed(s, keys, stop, push, you) == s
    decreases |keys|
  {
    if keys != [] {
      EndowedUnmatched(s, keys[..|keys| - 1], stop, push, you);
    }
  }

  /**
   * A block whose kind exactly one key `keys[i]` strips to gets exactly
   * that key's rule, whatever the other keys say.
   */
  lemma {:induction false} EndowedSingle(s: BlockState, keys: seq<string>, i: int, stop: map<string, bool>, push: map<string, bool>, you: map<string, bool>)
    requires HasKeys(keys, stop, push, you)
    requires 0 <= i < |keys| && StripNoun(keys[i]) == s.kind
    requires forall j :: 0 <= j < |keys| && j != i ==> StripNoun(keys[j]) != s.kind
    ensures var k := keys[i];
      Endowed(s, keys, stop, push, you) == EndowKey(s, s.kind, you[k], stop[k], push[k])
    decreases |keys|
  {
    var n := |keys| - 1;
    var prefix := keys[..n];
    if i == n {
      EndowedUnmatched(s, prefix, stop, push, you);
    } else {
      EndowedSingle(s, prefix, i, stop, push, you);
      EndowedOnlyFlags(s, prefix, stop, push, you);
    }
  }

  // ---------------------------------------------------------------------
  // transform
  // ---------------------------------------------------------------------

  /**
   * The attributes the noun branch of `transform` copies from `j` onto a
   * block of the subject kind: id, text flag, the three capability
   * flags, the location, and a texture loaded from `j`'s asset.
   */
  function CopyFrom(s: BlockState, j: BlockState): BlockState {
    s.(id := j.id, isText := j.isText, passable := j.passable, moveable := j.moveable,
       controllable := j.controllable, loc := j.loc, texture := j.asset)
  }

  /** The "you" branch of `transform`: exactly the blocks of kind `target` are controllable afterwards. */
  function GiveControl(board: seq<BlockState>, target: string): (r: seq<BlockState>)
    ensures |r| == |board|
    ensures forall k :: 0 <= k < |r| ==>
              (r[k].controllable <==> board[k].kind == target) && r[k].(controllable := board[k].controllable) == board[k]
  {
    seq(|board|, k requires 0 <= k < |board| => board[k].(controllable := board[k].kind == target))
  }

  /**
   * The noun branch of `transform`: every block of kind `target` takes
   * the attributes and the cell of the last block of the board.
   */
  function CopyOnto(board: seq<BlockState>, target: string): (r: seq<BlockState>)
    ensures |r| == |board|
    ensures forall k :: 0 <= k < |r| ==>
      if board[k].kind == target then
        var last := board[|board| - 1];
        r[k].loc == last.loc && r[k].id == last.id && r[k].isText == last.isText
        && r[k].passable == last.passable && r[k].moveable == last.moveable
        && r[k].controllable == last.controllable && r[k].texture == last.asset
        && r[k].kind == board[k].kind && r[k].word == board[k].word && r[k].asset == board[k].asset
      else r[k] == board[k]
  {
    if board == [] then
      board
    else
      var last := board[|board| - 1];
      seq(|board|, k requires 0 <= k < |board| => if board[k].kind == target then CopyFrom(board[k], last) else board[k])
  }

  /** The board after `transform` handles one sentence. */
  function ApplySentence(board: seq<BlockState>, s: Sentence): (r: seq<BlockState>)
    ensures |r| == |board|
    ensures forall k :: 0 <= k < |r| ==> r[k].kind == board[k].kind && r[k].word == board[k].word && r[k].asset == board[k].asset
  {
    var target := StripNoun(s.subject.kind);
    if s.complement.word == "you" then GiveControl(board, target) else CopyOnto(board, target)
  }

  /** The board after `transform` handles `ss` in order. */
  function Transformed(board: seq<BlockState>, ss: seq<Sentence>): seq<BlockState>
    decreases |ss|
  {
    if ss == [] then board else ApplySentence(Transformed(board, ss[..|ss| - 1]), ss[|ss| - 1])
  }

  /** `transform` never changes a block's class, word or asset, nor the board's length. */
  lemma {:induction false} TransformedKeepsKinds(board: seq<BlockState>, ss: seq<Sentence>)
    ensures var r := Transformed(board, ss);
      |r| == |board| && forall k :: 0 <= k < |r| ==> r[k].kind == board[k].kind && r[k].word == board[k].word
    decreases |ss|
  {
    if ss != [] {
      TransformedKeepsKinds(board, ss[..|ss| - 1]);
    }
  }

  // ---------------------------------------------------------------------
  // is_directly_win
  // ---------------------------------------------------------------------

  predicate WinOrYou(s: Sentence) {
    s.complement.word == "win" || s.complement.word == "you"
  }

  /** `_compareList`: subjects of the sentences whose predicate is "win" or "you", in order. */
  function WinYouSubjects(ss: seq<Sentence>): (r: seq<BlockState>)
    ensures |r| <= |ss|
    ensures forall x :: x in r <==> exists i :: 0 <= i < |ss| && WinOrYou(ss[i]) && ss[i].subject == x
    decreases |ss|
  {
    if ss == [] then []
    else
      var n := |ss| - 1;
      assert forall i :: 0 <= i < n ==> ss[..n][i] == ss[i];
      WinYouSubjects(ss[..n]) + (if WinOrYou(ss[n]) then [ss[n].subject] else [])
  }

  /**
   * Order: the subject of the "win"/"you" sentence `i` comes right after
   * the subjects collected from the sentences before it.
   */
  lemma {:induction false} WinYouSubjectsOrder(ss: seq<Sentence>, i: int)
    requires 0 <= i < |ss| && WinOrYou(ss[i])
    ensures var p := |WinYouSubjects(ss[..i])|;
      && p < |WinYouSubjects(ss)|
      && WinYouSubjects(ss)[..p] == WinYouSubjects(ss[..i])
      && WinYouSubjects(ss)[p] == ss[i].subject
    decreases |ss|
  {
    var n := |ss| - 1;
    var pre := ss[..n];
    if i == n {
      assert ss[..i] == pre;
    } else {
      WinYouSubjectsOrder(pre, i);
      assert pre[..i] == ss[..i];
      var prev := WinYouSubjects(pre);
      assert WinYouSubjects(ss)[..|prev|] == prev;
    }
  }

  /**
   * One step of the inner loop of `is_directly_win`: the pair of slots
   * (i, i + 1), when filled with a "win" or "you" predicate, adds its
   * subject to the collected subjects.
   */
  lemma WinYouSubjectsStep(before: seq<Sentence>, slots: seq<Option<BlockState>>, i: int)
    requires 0 <= i && i + 2 <= |slots| && i % 2 == 0
    ensures WinYouSubjects(before + SlotSentences(slots, i + 2))
         == WinYouSubjects(before + SlotSentences(slots, i))
            + (if slots[i].Some? && slots[i + 1].Some? && WinOrYou(Sentence(slots[i].value, slots[i + 1].value))
               then [slots[i].value] else [])
  {
    var prefix := SlotSentences(slots, i);
    var next := SlotSentences(slots, i + 2);
    var done := before + prefix;
    if slots[i].Some? && slots[i + 1].Some? {
      var s := Sentence(slots[i].value, slots[i + 1].value);
      assert next == prefix + [s];
      assert before + next == done + [s];
      WinYouSubjectsSnoc(done, s);
    } else {
      assert next == prefix;
    }
  }

  /** A sentence appended at the end adds its subject when its predicate is "win" or "you". */
  lemma WinYouSubjectsSnoc(ss: seq<Sentence>, s: Sentence)
    ensures WinYouSubjects(ss + [s]) == WinYouSubjects(ss) + (if WinOrYou(s) then [s.subject] else [])
  {
    assert (ss + [s])[..|ss|] == ss;
  }

  /** Sentences `i < j` are the only two whose predicate is "win" or "you". */
  ghost predicate OnlyWinYou(ss: seq<Sentence>, i: int, j: int) {
    && 0 <= i < j < |ss|
    && forall k :: 0 <= k < |ss| ==> (WinOrYou(ss[k]) <==> k == i || k == j)
  }

  /** Exactly two sentences name "win" or "you", and their subjects carry the same word. */
  ghost predicate TwoWinYouSameWord(ss: seq<Sentence>) {
    exists i, j :: OnlyWinYou(ss, i, j) && ss[i].subject.word == ss[j].subject.word
  }

  lemma {:induction false} NoWinYou(ss: seq<Sentence>)
    requires |WinYouSubjects(ss)| == 0
    ensures forall k :: 0 <= k < |ss| ==> !WinOrYou(ss[k])
    decreases |ss|
  {
    if ss != [] {
      var n := |ss| - 1;
      NoWinYou(ss[..n]);
      assert forall k :: 0 <= k < n ==> ss[..n][k] == ss[k];
    }
  }

  lemma {:induction false} OneWinYou(ss: seq<Sentence>)
    requires |WinYouSubjects(ss)| == 1
    ensures exists i :: 0 <= i < |ss| && WinYouSubjects(ss) == [ss[i].subject]
                        && forall k :: 0 <= k < |ss| ==> (WinOrYou(ss[k]) <==> k == i)
    decreases |ss|
  {
    var n := |ss| - 1;
    var pre := ss[..n];
    assert forall k :: 0 <= k < n ==> pre[k] == ss[k];
    if WinOrYou(ss[n]) {
      NoWinYou(pre);
      assert forall k :: 0 <= k < |ss| ==> (WinOrYou(ss[k]) <==> k == n);
    } else {
      OneWinYou(pre);
      var i :| 0 <= i < n && WinYouSubjects(pre) == [pre[i].subject]
               && forall k :: 0 <= k < n ==> (WinOrYou(pre[k]) <==> k == i);
      assert forall k :: 0 <= k < |ss| ==> (WinOrYou(ss[k]) <==> k == i);
    }
  }

  lemma {:induction false} TwoWinYou(ss: seq<Sentence>)
    requires |WinYouSubjects(ss)| == 2
    ensures exists i, j :: OnlyWinYou(ss, i, j) && WinYouSubjects(ss) == [ss[i].subject, ss[j].subject]
    decreases |ss|
  {
    var n := |ss| - 1;
    var pre := ss[..n];
    assert forall k :: 0 <= k < n ==> pre[k] == ss[k];
    if WinOrYou(ss[n]) {
      OneWinYou(pre);
      var i :| 0 <= i < n && WinYouSubjects(pre) == [pre[i].subject]
               && forall k :: 0 <= k < n ==> (WinOrYou(pre[k]) <==> k == i);
      assert OnlyWinYou(ss, i, n);
    } else {
      TwoWinYou(pre);
      var i, j :| OnlyWinYou(pre, i, j) && WinYouSubjects(pre) == [pre[i].subject, pre[j].subject];
      assert OnlyWinYou(ss, i, j);
    }
  }

  lemma {:induction false} OnlyTwoWinYou(ss: seq<Sentence>, i: int, j: int)
    requires OnlyWinYou(ss, i, j)
    ensures WinYouSubjects(ss) == [ss[i].subject, ss[j].subject]
    decreases |ss|
  {
    var n := |ss| - 1;
    var pre := ss[..n];
    assert forall k :: 0 <= k < n ==> pre[k] == ss[k];
    if j == n {
      OneWinYouAt(pre, i);
    } else {
      OnlyTwoWinYou(pre, i, j);
    }
  }

  lemma {:induction false} OneWinYouAt(ss: seq<Sentence>, i: int)
    requires 0 <= i < |ss| && forall k :: 0 <= k < |ss| ==> (WinOrYou(ss[k]) <==> k == i)
    ensures WinYouSubjects(ss) == [ss[i].subject]
    decreases |ss|
  {
    var n := |ss| - 1;
    var pre := ss[..n];
    assert forall k :: 0 <= k < n ==> pre[k] == ss[k];
    if i == n {
      NoneWinYouAt(pre);
    } else {
      OneWinYouAt(pre, i);
    }
  }

  lemma {:induction false} NoneWinYouAt(ss: seq<Sentence>)
    requires forall k :: 0 <= k < |ss| ==> !WinOrYou(ss[k])
    ensures WinYouSubjects(ss) == []
    decreases |ss|
  {
    if ss != [] {
      var n := |ss| - 1;
      assert forall k :: 0 <= k < n ==> ss[..n][k] == ss[k];
      NoneWinYouAt(ss[..n]);
    }
  }

  /**
   * `is_directly_win` on the collected sentences: true exactly when
   * exactly two sentences have predicate "win" or "you" and their
   * subjects carry the same word. Nothing requires one of the two to be
   * "win" and the other "you".
   */
  function DirectWin(ss: seq<Sentence>): (r: bool)
    ensures r <==> TwoWinYouSameWord(ss)
  {
    var compare := WinYouSubjects(ss);
    assert (|compare| == 2 && compare[0].word == compare[1].word)
       <==> exists i, j :: OnlyWinYou(ss, i, j) && ss[i].subject.word == ss[j].subject.word
    by {
      forall i, j | OnlyWinYou(ss, i, j) ensures compare == [ss[i].subject, ss[j].subject] {
        OnlyTwoWinYou(ss, i, j);
      }
      if |compare| == 2 {
        TwoWinYou(ss);
      }
    }
    if |compare| == 2 then compare[0].word == compare[1].word else false
  }
}
