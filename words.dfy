/**
 * Naming convention between word blocks and object blocks: the word
 * block for the object kind `Rock` is of class `RockNoun`, and the
 * source recovers the object kind with `"".join(name.split('Noun'))`.
 */
module Words {

  /** `s` contains "Noun" starting at index `i`. */
  predicate NounAt(s: string, i: int) {
    0 <= i && i + 4 <= |s| && s[i..i + 4] == "Noun"
  }

  predicate HasNoun(s: string) {
    exists i :: 0 <= i <= |s| - 4 && NounAt(s, i)
  }

  /** An occurrence of "Noun" that is not at the front of `s` is one of `s[1..]`. */
  lemma NounInTail(s: string)
    requires |s| > 0 && !NounAt(s, 0)
    ensures HasNoun(s) <==> HasNoun(s[1..])
  {
    if HasNoun(s) {
      var i :| 0 <= i <= |s| - 4 && NounAt(s, i);
      assert i != 0;
      assert s[1..][i - 1..i + 3] == s[i..i + 4];
      assert NounAt(s[1..], i - 1);
    }
    if HasNoun(s[1..]) {
      var i :| 0 <= i <= |s[1..]| - 4 && NounAt(s[1..], i);
      assert s[1..][i..i + 4] == s[i + 1..i + 5];
      assert NounAt(s, i + 1);
    }
  }

  /**
   * `"".join(name.split('Noun'))`: every non-overlapping occurrence of
   * "Noun", found left to right, is removed.
   */
  function StripNoun(name: string): (r: string)
    ensures |r| <= |name|
    ensures !HasNoun(name) ==> r == name
    ensures HasNoun(name) ==> |r| < |name|
    decreases |name|
  {
    if |name| < 4 then
      name
    else if name[..4] == "Noun" then
      assert NounAt(name, 0);
      StripNoun(name[4..])
    else
      NounInTail(name);
      [name[0]] + StripNoun(name[1..])
  }

  /**
   * Round trip of the naming convention: the object kind of the word
   * kind `kind + "Noun"` is `kind`, for every kind that itself does not
   * contain "Noun".
   */
  lemma {:induction false} StripNounOfNounKind(kind: string)
    requires !HasNoun(kind)
    ensures StripNoun(kind + "Noun") == kind
    decreases |kind|
  {
    var w := kind + "Noun";
    if kind == [] {
      assert w == "Noun";
      assert StripNoun(w) == StripNoun(w[4..]);
      assert w[4..] == [];
    } else {
      assert w[..4] != "Noun" by {
        if |kind| < 4 {
          assert w[..4][|kind|] == 'N';
          assert "Noun"[|kind|] != 'N';
        } else {
          assert w[..4] == kind[0..4];
          assert !NounAt(kind, 0);
        }
      }
      assert !NounAt(kind, 0);
      NounInTail(kind);
      assert w[1..] == kind[1..] + "Noun";
      StripNounOfNounKind(kind[1..]);
      assert kind == [kind[0]] + kind[1..];
    }
  }
}
