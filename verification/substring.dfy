/**
 Substring containment on strings, as Python's `keyword in text` decides it
 for two `str` values: true exactly when `keyword` occurs somewhere in `text`
 as a contiguous run of characters. The empty keyword occurs everywhere.
 */
module Substring {

  /** `prefix` is an initial segment of `s`. */
  predicate StartsWith(s: string, prefix: string) {
    |prefix| <= |s| && s[..|prefix|] == prefix
  }

  /** The executable test: try `needle` at every start position of `hay`, left to right. */
  function Contains(hay: string, needle: string): bool
    decreases |hay|
  {
    StartsWith(hay, needle) || (|hay| > 0 && Contains(hay[1..], needle))
  }

  /** `needle` occurs in `hay` starting at position `i`. */
  ghost predicate OccursAt(hay: string, needle: string, i: int) {
    0 <= i && i + |needle| <= |hay| && hay[i..i + |needle|] == needle
  }

  /** The reference meaning of containment: some start position works. */
  ghost predicate Occurs(hay: string, needle: string) {
    exists i :: OccursAt(hay, needle, i)
  }

  /** An occurrence in the tail of `hay` is an occurrence in `hay`, one position later, and back. */
  lemma OccursAtTail(hay: string, needle: string, i: int)
    requires |hay| > 0 && 0 <= i
    ensures OccursAt(hay[1..], needle, i) <==> OccursAt(hay, needle, i + 1)
  {
  }

  /** The executable test agrees with the reference meaning, in both directions. */
  lemma {:induction false} ContainsIffOccurs(hay: string, needle: string)
    ensures Contains(hay, needle) <==> Occurs(hay, needle)
    decreases |hay|
  {
    assert OccursAt(hay, needle, 0) <==> StartsWith(hay, needle) by {
      if |needle| <= |hay| {
        assert hay[0..|needle|] == hay[..|needle|];
      }
    }
    if StartsWith(hay, needle) {
    } else if |hay| == 0 {
      assert forall i :: OccursAt(hay, needle, i) ==> i == 0;
    } else {
      ContainsIffOccurs(hay[1..], needle);
      if Contains(hay[1..], needle) {
        var i :| OccursAt(hay[1..], needle, i);
        OccursAtTail(hay, needle, i);
      }
      if Occurs(hay, needle) {
        var i :| OccursAt(hay, needle, i);
        assert i > 0;
        OccursAtTail(hay, needle, i - 1);
      }
    }
  }

  /** Python's `"" in s` is true for every `s`, including the empty string. */
  lemma EmptyNeedleOccursEverywhere(hay: string)
    ensures Contains(hay, "")
  {
  }

  /** A needle longer than the text never occurs in it. */
  lemma {:induction false} LongNeedleNeverOccurs(hay: string, needle: string)
    requires |needle| > |hay|
    ensures !Contains(hay, needle)
    decreases |hay|
  {
    if |hay| > 0 {
      LongNeedleNeverOccurs(hay[1..], needle);
    }
  }
}
