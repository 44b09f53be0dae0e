/**
 * A descriptor as an array of words that its owner writes one at a time, in any order and as often as it likes.
 */
module DescriptorWords {

  /** One write: the index of the word and its value. */
  type Write<W> = (nat, W)

  /** The last value written into word `c` is `w`. */
  ghost predicate LastWrite<W>(writes: seq<Write<W>>, c: nat, w: W) {
    exists j :: 0 <= j < |writes| && writes[j] == (c, w) && forall i :: j < i < |writes| ==> writes[i].0 != c
  }

  /** The words after the writes; one past the end has no effect. */
  function Written<W>(words: seq<W>, writes: seq<Write<W>>): (r: seq<W>)
    ensures |r| == |words|
    decreases |writes|
  {
    if writes == [] then words else
    var before, last := Written(words, writes[..|writes| - 1]), writes[|writes| - 1];
    if last.0 < |words| then before[last.0 := last.1] else before
  }

  lemma {:induction false} LastIsWritten<W>(words: seq<W>, writes: seq<Write<W>>, c: nat, w: W)
    requires LastWrite(writes, c, w) && c < |words|
    ensures Written(words, writes)[c] == w
    decreases |writes|
  {
    var n := |writes| - 1;
    var j :| 0 <= j < |writes| && writes[j] == (c, w) && forall i :: j < i < |writes| ==> writes[i].0 != c;
    if j < n {
      assert writes[..n][j] == (c, w);
      LastIsWritten(words, writes[..n], c, w);
    }
  }

  lemma WrittenNone<W>(words: seq<W>)
    ensures Written(words, []) == words
  {}

  lemma WrittenMore<W>(words: seq<W>, writes: seq<Write<W>>, x: Write<W>)
    ensures Written(words, writes + [x]) == if x.0 < |words| then Written(words, writes)[x.0 := x.1] else Written(words, writes)
  {
    assert (writes + [x])[..|writes|] == writes;
  }
}
